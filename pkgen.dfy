/** hvn-pkgen: builds a sandbox (user and mount namespaces, a tmpfs root
    with six bind mounts, a chroot into it), loads the recipes' environment
    file and runs the named recipes one after the other, stopping at the
    first failure.

    Every system call is an abstract step: the kernel is the function `os`
    that answers each call, and a run returns the calls it attempted, in
    order (its trace). A recipe's termination is an input (`term`). */
module Pkgen {
  import opened CStr
  import opened Getopt
  import opened Sys

  // ---------------------------------------------------------------------
  // Command line (hvn_pkgen_parse_args)

  datatype Args = Args(log: Option<string>, app: string, data: string, toolchain: string)

  datatype Parsed = Parsed(args: Args, recipes: seq<string>) | UsageError(message: string)

  const Letters: set<char> := {'l', 'a', 'd', 't'}

  /** What the option loop and the four checks after it decide. */
  function Parse(events: seq<Event>, operands: seq<string>): Parsed {
    var k := FirstUnrecognized(events, Letters);
    if k < |events| then UsageError(Complaint(events[k]))
    else Check(LastArg(events, 'l'), LastArg(events, 'a'), LastArg(events, 'd'), LastArg(events, 't'), operands)
  }

  /** The checks made once every option has been read. */
  function Check(log: Option<string>, app: Option<string>, data: Option<string>, toolchain: Option<string>,
                 operands: seq<string>): Parsed {
    if app.None? then UsageError("Missing application recipes directory")
    else if data.None? then UsageError("Missing data directory")
    else if toolchain.None? then UsageError("Missing toolchain")
    else if |operands| < 1 then UsageError("Missing app recipes")
    else Parsed(Args(log, app.value, data.value, toolchain.value), operands)
  }

  /** The command line is accepted exactly when every option is one of
      -l -a -d -t with its argument, -a, -d and -t are all given, and at
      least one recipe follows; a repeated option keeps its last value. */
  lemma ParseAcceptsIff(events: seq<Event>, operands: seq<string>)
    ensures Parse(events, operands).Parsed? <==>
      (forall i | 0 <= i < |events| :: events[i].Opt? && events[i].letter in Letters) &&
      (exists i | 0 <= i < |events| :: events[i].Opt? && events[i].letter == 'a') &&
      (exists i | 0 <= i < |events| :: events[i].Opt? && events[i].letter == 'd') &&
      (exists i | 0 <= i < |events| :: events[i].Opt? && events[i].letter == 't') &&
      operands != []
  {
    var k := FirstUnrecognized(events, Letters);
    if k < |events| {
      assert !Recognized(events[k], Letters);
    }
    LastArgIsLast(events, 'a');
    LastArgIsLast(events, 'd');
    LastArgIsLast(events, 't');
  }

  lemma ParseRejects(events: seq<Event>, operands: seq<string>, i: nat)
    requires i < |events| && !Recognized(events[i], Letters)
    requires forall j | 0 <= j < i :: Recognized(events[j], Letters)
    ensures Parse(events, operands) == UsageError(Complaint(events[i]))
  {
    assert FirstUnrecognized(events, Letters) == i;
  }

  lemma ParseChecks(events: seq<Event>, operands: seq<string>)
    requires forall j | 0 <= j < |events| :: Recognized(events[j], Letters)
    ensures Parse(events, operands) ==
      Check(LastArg(events, 'l'), LastArg(events, 'a'), LastArg(events, 'd'), LastArg(events, 't'), operands)
  {
    assert FirstUnrecognized(events, Letters) == |events|;
  }

  /** One more option read by the loop: only its own letter's value
      changes. */
  lemma ParseStep(events: seq<Event>, i: nat, before: seq<Event>, after: seq<Event>)
    requires i < |events| && before == events[..i] && after == events[..i + 1]
    ensures forall letter | letter in Letters ::
      LastArg(after, letter) == if events[i].Opt? && events[i].letter == letter then Some(events[i].arg) else LastArg(before, letter)
  {
    TakeSnoc(events, i);
    forall letter | letter in Letters
      ensures LastArg(after, letter) == if events[i].Opt? && events[i].letter == letter then Some(events[i].arg) else LastArg(before, letter)
    {
      LastArgSnoc(before, events[i], letter);
    }
  }

  /** After every option was recognized, the checks decide. */
  lemma ParseAccepted(events: seq<Event>, operands: seq<string>, before: seq<Event>)
    requires before == events[..|events|]
    requires forall j | 0 <= j < |events| :: Recognized(events[j], Letters)
    ensures Parse(events, operands) ==
      Check(LastArg(before, 'l'), LastArg(before, 'a'), LastArg(before, 'd'), LastArg(before, 't'), operands)
  {
    assert before == events;
    ParseChecks(events, operands);
  }

  method ParseArgs(events: seq<Event>, operands: seq<string>) returns (r: Parsed)
    ensures r == Parse(events, operands)
  {
    var log, app, data, toolchain := None, None, None, None;
    var i := 0;
    ghost var before: seq<Event> := [];
    while i < |events|
      invariant 0 <= i <= |events| && before == events[..i]
      invariant forall j | 0 <= j < i :: Recognized(events[j], Letters)
      invariant log == LastArg(before, 'l')
      invariant app == LastArg(before, 'a')
      invariant data == LastArg(before, 'd')
      invariant toolchain == LastArg(before, 't')
    {
      var e := events[i];
      ghost var after := events[..i + 1];
      ParseStep(events, i, before, after);
      if e.Opt? && e.letter == 'l' {
        log := Some(e.arg);
      } else if e.Opt? && e.letter == 'a' {
        app := Some(e.arg);
      } else if e.Opt? && e.letter == 'd' {
        data := Some(e.arg);
      } else if e.Opt? && e.letter == 't' {
        toolchain := Some(e.arg);
      } else {
        ParseRejects(events, operands, i);
        return UsageError(Complaint(e));
      }
      i, before := i + 1, after;
    }
    ParseAccepted(events, operands, before);
    if app.None? {
      return UsageError("Missing application recipes directory");
    }
    if data.None? {
      return UsageError("Missing data directory");
    }
    if toolchain.None? {
      return UsageError("Missing toolchain");
    }
    if |operands| < 1 {
      return UsageError("Missing app recipes");
    }
    return Parsed(Args(log, app.value, data.value, toolchain.value), operands);
  }

  // ---------------------------------------------------------------------
  // System calls and the fail-fast discipline

  datatype MountFlag = Bind | Recursive | ReadOnly

  datatype MountPoint = MountPoint(origin: string, path: string, flags: set<MountFlag>)

  datatype Call =
    | ClearEnv
    | CreateLog(path: string)         // open(path, O_WRONLY | O_CREAT | O_TRUNC, 0666)
    | Dup2(path: string, fd: int)     // dup2 of the log onto fd
    | Unshare                         // CLONE_NEWUSER | CLONE_NEWNS
    | Open(path: string)
    | Write(path: string, bytes: string)
    | Umount(path: string)
    | MountTmpfs(path: string)
    | Mkdir(path: string)
    | Mount(origin: string, target: string, flags: set<MountFlag>)
    | Chroot(path: string)
    | Symlink(target: string, link: string)
    | Chdir(path: string)
    | OpenStream(path: string)        // fopen(path, "r")
    | Fork(position: nat, recipe: string)
    | Waitpid(position: nat, recipe: string)

  /** Whether the source carries on after call c answered r: an umount
      that fails with EINVAL (nothing mounted there) is tolerated, and a
      write must write every byte. */
  predicate Succeeds(c: Call, r: Reply) {
    if c.Umount? then r.Done? || r.errno == EINVAL
    else if c.Write? then r == Done(|c.bytes|)
    else r.Done?
  }

  /** What running a plan comes to: the calls attempted, in order, and
      whether all of them succeeded. */
  datatype Outcome = Outcome(calls: seq<Call>, ok: bool)

  /** Runs `plan` and stops at its first failing call, that call
      included. */
  function Attempt(plan: seq<Call>, os: Call -> Reply): Outcome {
    if plan == [] then Outcome([], true)
    else if !Succeeds(plan[0], os(plan[0])) then Outcome([plan[0]], false)
    else
      var r := Attempt(plan[1..], os);
      Outcome([plan[0]] + r.calls, r.ok)
  }

  /** The outcome `o` of a plan run after the calls in `trace`. */
  function After(trace: seq<Call>, o: Outcome): Outcome {
    Outcome(trace + o.calls, o.ok)
  }

  /** A plan succeeds exactly when each of its calls does, and it is then
      attempted in full. */
  lemma {:induction false} AttemptSucceedsIff(plan: seq<Call>, os: Call -> Reply)
    ensures Attempt(plan, os).ok <==> forall i | 0 <= i < |plan| :: Succeeds(plan[i], os(plan[i]))
    ensures Attempt(plan, os).ok ==> Attempt(plan, os).calls == plan
  {
    if plan != [] {
      AttemptSucceedsIff(plan[1..], os);
      if forall i | 0 <= i < |plan| :: Succeeds(plan[i], os(plan[i])) {
        forall i | 0 <= i < |plan| - 1 ensures Succeeds(plan[1..][i], os(plan[1..][i])) {
          assert plan[1..][i] == plan[i + 1];
        }
      }
      if Attempt(plan, os).ok {
        forall i | 0 < i < |plan| ensures Succeeds(plan[i], os(plan[i])) {
          assert plan[i] == plan[1..][i - 1];
        }
      }
    }
  }

  /** Running two plans in a row: the second is reached only if the whole
      first one succeeded. */
  lemma {:induction false} AttemptAppend(a: seq<Call>, b: seq<Call>, os: Call -> Reply)
    ensures Attempt(a + b, os) == if Attempt(a, os).ok then After(a, Attempt(b, os)) else Attempt(a, os)
  {
    if a == [] {
      assert a + b == b;
    } else {
      assert (a + b)[0] == a[0];
      assert (a + b)[1..] == a[1..] + b;
      AttemptAppend(a[1..], b, os);
      if Attempt(a, os).ok {
        AttemptSucceedsIff(a, os);
        AttemptSucceedsIff(a[1..], os);
      }
    }
  }

  /** If call k is the first to fail, exactly calls 0..k are attempted:
      nothing after a failure is tried. */
  lemma {:induction false} AttemptStopsAtFirstFailure(plan: seq<Call>, os: Call -> Reply, k: nat)
    requires k < |plan| && !Succeeds(plan[k], os(plan[k]))
    requires forall i | 0 <= i < k :: Succeeds(plan[i], os(plan[i]))
    ensures Attempt(plan, os) == Outcome(plan[..k + 1], false)
  {
    if k > 0 {
      assert Succeeds(plan[0], os(plan[0]));
      AttemptStopsAtFirstFailure(plan[1..], os, k - 1);
      assert plan[..k + 1] == [plan[0]] + plan[1..][..k];
    }
  }

  /** What is attempted is a prefix of the plan, and every attempted call
      but the last succeeded. */
  lemma {:induction false} AttemptPrefix(plan: seq<Call>, os: Call -> Reply)
    ensures var t := Attempt(plan, os).calls;
      |t| <= |plan| && t == plan[..|t|] &&
      forall i | 0 <= i < |t| - 1 :: Succeeds(plan[i], os(plan[i]))
  {
    if plan != [] && Succeeds(plan[0], os(plan[0])) {
      AttemptPrefix(plan[1..], os);
      var t := Attempt(plan, os).calls;
      forall i | 0 < i < |t| - 1 ensures Succeeds(plan[i], os(plan[i])) {
        assert plan[i] == plan[1..][i - 1];
      }
    }
  }

  /** One call of a plan, made after the calls already in `trace`: `rest`
      is what remained of the plan and `rest'` what remains afterwards. */
  method Step(c: Call, os: Call -> Reply, trace: seq<Call>, ghost rest: seq<Call>)
    returns (ok: bool, trace': seq<Call>, ghost rest': seq<Call>)
    requires rest != [] && rest[0] == c
    ensures ok == Succeeds(c, os(c))
    ensures trace' == trace + [c] && rest' == rest[1..]
    ensures After(trace, Attempt(rest, os)) == if ok then After(trace', Attempt(rest', os)) else Outcome(trace', false)
  {
    ok := Succeeds(c, os(c));
    trace' := trace + [c];
    rest' := rest[1..];
  }

  // ---------------------------------------------------------------------
  // Output redirection (hvn_pkgen_log)

  /** Create or truncate the log, then make it standard output and
      standard error. */
  function RedirectPlan(path: string): seq<Call> {
    [CreateLog(path), Dup2(path, 1), Dup2(path, 2)]
  }

  method Log(path: string, os: Call -> Reply) returns (status: int, trace: seq<Call>)
    ensures Outcome(trace, status == 0) == Attempt(RedirectPlan(path), os)
    ensures status == 0 || status == -1
  {
    var ok;
    ghost var rest := RedirectPlan(path);
    ok, trace, rest := Step(CreateLog(path), os, [], rest);
    if ok {
      ok, trace, rest := Step(Dup2(path, 1), os, trace, rest);
      if ok {
        ok, trace, rest := Step(Dup2(path, 2), os, trace, rest);
        assert rest == [];
      }
    }
    status := if ok then 0 else -1;
  }

  // ---------------------------------------------------------------------
  // Identity isolation (hvn_pkgen_id_map_zero, hvn_pkgen_deny)

  /** A user or group id: uid_t and gid_t are 32-bit unsigned. */
  type Id = x: int | 0 <= x < 0x1_0000_0000

  /** `%d` reads the 32-bit id as a signed int. */
  function AsInt32(id: Id): int {
    if id < 0x8000_0000 then id else id - 0x1_0000_0000
  }

  const UidMapPath := "/proc/self/uid_map"
  const GidMapPath := "/proc/self/gid_map"
  const SetgroupsPath := "/proc/self/setgroups"

  /** The id-map record "0 <id> 1" followed by its terminating NUL, all of
      which is written. */
  function IdMapRecord(id: Id): string {
    "0 " + Decimal(AsInt32(id)) + " 1" + "\0"
  }

  /** The record maps exactly one id, 0 inside the namespace, to `id`
      outside, with a range of length 1; the id reads back from it. */
  lemma IdMapRecordReadsBack(id: Id)
    requires id < 0x8000_0000
    ensures var r := IdMapRecord(id);
      var digits := r[2..|r| - 3];
      r[..2] == "0 " && r[|r| - 3..] == " 1\0" && StrToUL(digits, false) == (id as nat, |digits|)
  {
    DecimalReadsBack(id);
    var r := IdMapRecord(id);
    assert r[2..|r| - 3] == Decimal(id);
  }

  function IdMapPlan(path: string, id: Id): seq<Call> {
    [Open(path), Write(path, IdMapRecord(id))]
  }

  function DenyPlan(path: string): seq<Call> {
    [Open(path), Write(path, "deny")]
  }

  method IdMapZero(path: string, id: Id, os: Call -> Reply) returns (status: int, trace: seq<Call>)
    ensures Outcome(trace, status == 0) == Attempt(IdMapPlan(path, id), os)
    ensures status == 0 || status == -1
  {
    var ok;
    ghost var rest := IdMapPlan(path, id);
    ok, trace, rest := Step(Open(path), os, [], rest);
    if ok {
      ok, trace, rest := Step(Write(path, IdMapRecord(id)), os, trace, rest);
      assert rest == [];
    }
    status := if ok then 0 else -1;
  }

  method Deny(path: string, os: Call -> Reply) returns (status: int, trace: seq<Call>)
    ensures Outcome(trace, status == 0) == Attempt(DenyPlan(path), os)
    ensures status == 0 || status == -1
  {
    var ok;
    ghost var rest := DenyPlan(path);
    ok, trace, rest := Step(Open(path), os, [], rest);
    if ok {
      ok, trace, rest := Step(Write(path, "deny"), os, trace, rest);
      assert rest == [];
    }
    status := if ok then 0 else -1;
  }

  // ---------------------------------------------------------------------
  // Root assembly (hvn_pkgen_mkroot)

  /** The fixed mount plan: device, system and process trees bound
      recursively, the recipes read-only at /app, the data writable at
      /data and the toolchain read-only at /usr. */
  function MountPoints(args: Args): seq<MountPoint> {
    [ MountPoint("/dev", "/dev", {Bind, Recursive}),
      MountPoint("/sys", "/sys", {Bind, Recursive}),
      MountPoint("/proc", "/proc", {Bind, Recursive}),
      MountPoint(args.app, "/app", {Bind, ReadOnly}),
      MountPoint(args.data, "/data", {Bind}),
      MountPoint(args.toolchain, "/usr", {Bind, ReadOnly}) ]
  }

  /** For each mount point, in order: create its target under the root,
      then mount its origin there. */
  function MountSteps(root: string, points: seq<MountPoint>): seq<Call> {
    if points == [] then []
    else
      var p := points[0];
      [Mkdir(root + p.path), Mount(p.origin, root + p.path, p.flags)] + MountSteps(root, points[1..])
  }

  const RootTail: seq<Call> := [Symlink("usr/bin", "/bin"), Symlink("usr/lib", "/lib"), Chdir("/data")]

  function RootPlan(root: string, args: Args): seq<Call> {
    [Umount(root), MountTmpfs(root)] + (MountSteps(root, MountPoints(args)) + ([Chroot(root)] + RootTail))
  }

  /** Steps 2i and 2i+1 of the mount steps create the target of mount
      point i, the root followed by its path, and mount its origin there. */
  lemma {:induction false} MountStepsAt(root: string, points: seq<MountPoint>, i: nat)
    requires i < |points|
    ensures |MountSteps(root, points)| == 2 * |points|
    ensures MountSteps(root, points)[2 * i] == Mkdir(root + points[i].path)
    ensures MountSteps(root, points)[2 * i + 1] == Mount(points[i].origin, root + points[i].path, points[i].flags)
  {
    if i > 0 {
      MountStepsAt(root, points[1..], i - 1);
    } else if |points| > 1 {
      MountStepsAt(root, points[1..], 0);
    }
  }

  /** Where a call of a plan made of a head, steps and a tail sits. */
  lemma PlanLayout<T>(head: seq<T>, steps: seq<T>, tail: seq<T>, k: nat)
    ensures k < |head| ==> (head + (steps + tail))[k] == head[k]
    ensures |head| <= k < |head| + |steps| ==> (head + (steps + tail))[k] == steps[k - |head|]
    ensures (head + (steps + tail))[|head| + |steps|..] == tail
  {
    assert (head + (steps + tail))[|head| + |steps|..] == tail;
  }

  /** Calls 2 + 2i and 3 + 2i of the root plan create the target of mount
      point i and mount its origin there. */
  lemma RootPlanMountAt(root: string, args: Args, i: nat)
    requires i < 6
    ensures var plan, p := RootPlan(root, args), MountPoints(args)[i];
      |plan| == 18 && plan[2 + 2 * i] == Mkdir(root + p.path) && plan[3 + 2 * i] == Mount(p.origin, root + p.path, p.flags)
  {
    var points := MountPoints(args);
    var head, steps, tail := [Umount(root), MountTmpfs(root)], MountSteps(root, points), [Chroot(root)] + RootTail;
    MountStepsAt(root, points, i);
    PlanLayout(head, steps, tail, 2 + 2 * i);
    PlanLayout(head, steps, tail, 3 + 2 * i);
  }

  /** The root plan starts with the unmount and the tmpfs and ends with
      the chroot and the links. */
  lemma RootPlanEnds(root: string, args: Args)
    ensures var plan := RootPlan(root, args);
      |plan| == 18 && plan[0] == Umount(root) && plan[1] == MountTmpfs(root) &&
      plan[14..] == [Chroot(root)] + RootTail &&
      plan[14] == Chroot(root) && plan[15] == Symlink("usr/bin", "/bin") &&
      plan[16] == Symlink("usr/lib", "/lib") && plan[17] == Chdir("/data")
  {
    var points := MountPoints(args);
    var head, steps, tail := [Umount(root), MountTmpfs(root)], MountSteps(root, points), [Chroot(root)] + RootTail;
    MountStepsAt(root, points, 0);
    PlanLayout(head, steps, tail, 0);
    PlanLayout(head, steps, tail, 1);
  }

  /** The root plan: tmpfs first, then the six mounts, each right after
      the creation of its target, then the chroot and the links. */
  lemma RootPlanOrder(root: string, args: Args)
    ensures |RootPlan(root, args)| == 18
    ensures RootPlan(root, args)[0] == Umount(root) && RootPlan(root, args)[1] == MountTmpfs(root)
    ensures forall i | 0 <= i < 6 ::
      RootPlan(root, args)[2 + 2 * i] == Mkdir(root + MountPoints(args)[i].path) &&
      RootPlan(root, args)[3 + 2 * i] == Mount(MountPoints(args)[i].origin, root + MountPoints(args)[i].path, MountPoints(args)[i].flags)
    ensures RootPlan(root, args)[14..] == [Chroot(root)] + RootTail
    ensures RootPlan(root, args)[14] == Chroot(root) && RootPlan(root, args)[15] == Symlink("usr/bin", "/bin") &&
      RootPlan(root, args)[16] == Symlink("usr/lib", "/lib") && RootPlan(root, args)[17] == Chdir("/data")
  {
    RootPlanEnds(root, args);
    forall i | 0 <= i < 6
      ensures RootPlan(root, args)[2 + 2 * i] == Mkdir(root + MountPoints(args)[i].path)
      ensures RootPlan(root, args)[3 + 2 * i] == Mount(MountPoints(args)[i].origin, root + MountPoints(args)[i].path, MountPoints(args)[i].flags)
    {
      RootPlanMountAt(root, args, i);
    }
  }

  /** A call of the root plan that is a mount sits at an odd position from
      3 to 13. */
  lemma RootPlanMountIndex(root: string, args: Args, k: nat)
    requires k < |RootPlan(root, args)|
    ensures RootPlan(root, args)[k].Mount? <==> 3 <= k < 14 && k % 2 == 1
  {
    RootPlanEnds(root, args);
    var plan := RootPlan(root, args);
    if 2 <= k < 14 {
      var i := (k - 2) / 2;
      RootPlanMountAt(root, args, i);
      if k % 2 == 0 {
        assert k == 2 + 2 * i;
      } else {
        assert k == 3 + 2 * i;
      }
    } else if k >= 14 {
      assert plan[k] == plan[14..][k - 14];
    }
  }

  /** The calls at odd positions 3 to 13 are the mounts, and no other
      call of the root plan is. */
  lemma RootPlanMounts(root: string, args: Args)
    ensures forall k | 0 <= k < |RootPlan(root, args)| :: RootPlan(root, args)[k].Mount? <==> 3 <= k < 14 && k % 2 == 1
  {
    forall k | 0 <= k < |RootPlan(root, args)| ensures RootPlan(root, args)[k].Mount? <==> 3 <= k < 14 && k % 2 == 1 {
      RootPlanMountIndex(root, args, k);
    }
  }

  /** Every mount the launcher attempts comes right after the successful
      creation of its target directory. */
  lemma MountFollowsMkdir(root: string, args: Args, os: Call -> Reply, j: nat)
    requires j < |Attempt(RootPlan(root, args), os).calls|
    requires Attempt(RootPlan(root, args), os).calls[j].Mount?
    ensures j > 0
    ensures var t := Attempt(RootPlan(root, args), os).calls;
      t[j - 1] == Mkdir(t[j].target) && Succeeds(t[j - 1], os(t[j - 1]))
  {
    var plan := RootPlan(root, args);
    var t := Attempt(plan, os).calls;
    AttemptPrefix(plan, os);
    assert t[j] == plan[j];
    RootPlanMountIndex(root, args, j);
    var i := (j - 3) / 2;
    assert 3 + 2 * i == j;
    RootPlanMountAt(root, args, i);
    assert t[j - 1] == plan[j - 1];
  }

  lemma MountStepsUnfold(root: string, points: seq<MountPoint>, current: nat, tail: seq<Call>)
    requires current < |points|
    ensures MountSteps(root, points[current..]) + tail ==
      [Mkdir(root + points[current].path)] + ([Mount(points[current].origin, root + points[current].path, points[current].flags)] +
      (MountSteps(root, points[current + 1..]) + tail))
  {
    assert points[current..][1..] == points[current + 1..];
  }

  /** The loop of the root assembly: each mount point in turn, stopping at
      the first failing mkdir or mount. The whole plan has these mount
      steps, then `tail`, still to run after the calls in `trace0`. */
  method MountAll(root: string, points: seq<MountPoint>, os: Call -> Reply,
                  trace0: seq<Call>, ghost tail: seq<Call>, ghost plan: seq<Call>)
    returns (ok: bool, trace: seq<Call>)
    requires Attempt(plan, os) == After(trace0, Attempt(MountSteps(root, points) + tail, os))
    ensures Attempt(plan, os) == if ok then After(trace, Attempt(tail, os)) else Outcome(trace, false)
  {
    trace := trace0;
    ghost var rest := MountSteps(root, points) + tail;
    var current := 0;
    assert points[current..] == points;
    while current != |points|
      invariant 0 <= current <= |points|
      invariant rest == MountSteps(root, points[current..]) + tail
      invariant Attempt(plan, os) == After(trace, Attempt(rest, os))
    {
      var p := points[current];
      var target := root + p.path;
      MountStepsUnfold(root, points, current, tail);
      ok, trace, rest := Step(Mkdir(target), os, trace, rest);
      if !ok {
        return;
      }
      ok, trace, rest := Step(Mount(p.origin, target, p.flags), os, trace, rest);
      if !ok {
        return;
      }
      current := current + 1;
    }
    assert points[current..] == [];
    assert rest == [] + tail == tail;
    ok := true;
  }

  method MakeRoot(root: string, args: Args, os: Call -> Reply) returns (status: int, trace: seq<Call>)
    ensures Outcome(trace, status == 0) == Attempt(RootPlan(root, args), os)
    ensures status == 0 || status == -1
  {
    ghost var plan := RootPlan(root, args);
    ghost var tail := [Chroot(root)] + RootTail;
    ghost var rest := plan;
    var ok;
    ok, trace, rest := Step(Umount(root), os, [], rest);
    if !ok {
      return -1, trace;
    }
    ok, trace, rest := Step(MountTmpfs(root), os, trace, rest);
    if !ok {
      return -1, trace;
    }

    ok, trace := MountAll(root, MountPoints(args), os, trace, tail, plan);
    if !ok {
      return -1, trace;
    }

    rest := tail;
    ok, trace, rest := Step(Chroot(root), os, trace, rest);
    if ok {
      ok, trace, rest := Step(Symlink("usr/bin", "/bin"), os, trace, rest);
      if ok {
        ok, trace, rest := Step(Symlink("usr/lib", "/lib"), os, trace, rest);
        if ok {
          ok, trace, rest := Step(Chdir("/data"), os, trace, rest);
          assert rest == [];
        }
      }
    }
    status := if ok then 0 else -1;
  }

  // ---------------------------------------------------------------------
  // Environment file (hvn_pkgen_environment)

  datatype Entry = Entry(name: string, value: string)

  /** A line of the file as the loader reads it AS WRITTEN: a line that is
      empty or starts with '#' is skipped, a line without '=' gives
      nothing, otherwise it splits at its first '='. The newline test
      compares the last byte with '\0', so the '\n' stays in the value. */
  function ParseLineAsWritten(line: string): (r: Option<Entry>)
    ensures r.Some? ==> '=' !in r.value.name && line == r.value.name + "=" + r.value.value
  {
    if line == [] || line[0] == '#' then None
    else match IndexOf(line, '=')
      case None => None
      case Some(k) => Some(Entry(line[..k], line[k + 1..]))
  }

  /** A line as the loader evidently intends to read it: as above, with
      the trailing '\n' removed before the split. */
  function ParseLine(line: string): (r: Option<Entry>)
    ensures r.Some? ==> ('=' !in r.value.name &&
      (line == r.value.name + "=" + r.value.value || line == r.value.name + "=" + r.value.value + "\n"))
  {
    if line == [] || line[0] == '#' then None
    else
      var text := if line[|line| - 1] == '\n' then line[..|line| - 1] else line;
      assert line == text || line == text + "\n";
      match IndexOf(text, '=')
      case None => None
      case Some(k) =>
        assert text == text[..k] + "=" + text[k + 1..];
        Some(Entry(text[..k], text[k + 1..]))
  }

  /** The line written for an entry. */
  function FormatLine(e: Entry): string {
    e.name + "=" + e.value + "\n"
  }

  /** The as-written loader breaks the round trip: the line "A=b\n" that
      FormatLine writes for A=b sets A to "b\n". */
  lemma NewlineKeptAsWritten()
    ensures ParseLineAsWritten(FormatLine(Entry("A", "b"))) == Some(Entry("A", "b\n"))
    ensures Load(map[], [FormatLine(Entry("A", "b"))]) == Loaded(map["A" := "b\n"], true)
  {
    var line := FormatLine(Entry("A", "b"));
    assert line == "A=b\n";
    assert line[0] != '=' && line[1] == '=';
    assert IndexOf(line[1..], '=') == Some(0);
    assert line[..1] == "A" && line[2..] == "b\n";
    var lines: seq<string> := [line];
    assert lines[..0] == [];
  }

  /** The intended loader reads back what FormatLine writes, for any name
      that is not a comment and has no '=', and any value without '\n'. */
  lemma ParseFormatRoundTrip(e: Entry)
    requires e.name != [] && e.name[0] != '#' && '=' !in e.name && '\n' !in e.value
    ensures ParseLine(FormatLine(e)) == Some(e)
    ensures ParseLine(e.name + "=" + e.value) == Some(e)
  {
    var line := FormatLine(e);
    assert line[..|line| - 1] == e.name + "=" + e.value;
    var text := e.name + "=" + e.value;
    assert text[|e.name|] == '=';
    assert text[..|e.name|] == e.name;
    if e.value != [] {
      assert text[|text| - 1] == e.value[|e.value| - 1];
    }
    assert text[|e.name| + 1..] == e.value;
  }

  /** setenv(name, value, 1) fails with EINVAL on an empty name (a name
      holding '=' cannot come out of the split). */
  predicate SetenvFails(e: Entry) {
    e.name == []
  }

  datatype Loaded = Loaded(env: map<string, string>, ok: bool)

  /** The loader's state after one more line. */
  function LoadLine(before: Loaded, line: string): Loaded {
    if !before.ok then before
    else match ParseLineAsWritten(line)
      case None => before
      case Some(e) =>
        if SetenvFails(e) then Loaded(before.env, false)
        else Loaded(before.env[e.name := e.value], true)
  }

  /** The environment after the loader has read `lines`, overriding
      existing names, and whether it got through them all. */
  function Load(env: map<string, string>, lines: seq<string>): Loaded {
    if lines == [] then Loaded(env, true)
    else LoadLine(Load(env, lines[..|lines| - 1]), lines[|lines| - 1])
  }

  /** Once a setenv has failed, later lines change nothing. */
  lemma {:induction false} LoadStops(env: map<string, string>, lines: seq<string>, k: nat)
    requires k <= |lines| && !Load(env, lines[..k]).ok
    ensures Load(env, lines) == Load(env, lines[..k])
  {
    if k < |lines| {
      assert lines[..|lines| - 1][..k] == lines[..k];
      LoadStops(env, lines[..|lines| - 1], k);
    } else {
      assert lines[..k] == lines;
    }
  }

  /** One more line: a failed load stays failed, the line's own name is
      set to its value, and every other name keeps its value. */
  lemma LoadLineEffect(before: Loaded, line: string, name: string)
    requires LoadLine(before, line).ok
    ensures before.ok
    ensures ParseLineAsWritten(line).Some? && ParseLineAsWritten(line).value.name == name ==>
      name in LoadLine(before, line).env && LoadLine(before, line).env[name] == ParseLineAsWritten(line).value.value
    ensures ParseLineAsWritten(line).None? || ParseLineAsWritten(line).value.name != name ==>
      (name in LoadLine(before, line).env <==> name in before.env) &&
      (name in before.env ==> LoadLine(before, line).env[name] == before.env[name])
  {
  }

  /** A later definition of a name wins: if line j is the last line that
      sets `name` and the load succeeds, the environment maps name to the
      value of line j. */
  lemma {:induction false} LastDefinitionWins(env: map<string, string>, lines: seq<string>, j: nat, name: string, value: string)
    requires j < |lines| && ParseLineAsWritten(lines[j]) == Some(Entry(name, value))
    requires forall i | j < i < |lines| :: ParseLineAsWritten(lines[i]).None? || ParseLineAsWritten(lines[i]).value.name != name
    requires Load(env, lines).ok
    ensures name in Load(env, lines).env && Load(env, lines).env[name] == value
  {
    var init := lines[..|lines| - 1];
    var last := lines[|lines| - 1];
    var before := Load(env, init);
    assert Load(env, lines) == LoadLine(before, last);
    LoadLineEffect(before, last, name);
    if j < |lines| - 1 {
      forall i | j < i < |init| ensures ParseLineAsWritten(init[i]).None? || ParseLineAsWritten(init[i]).value.name != name {
        assert init[i] == lines[i];
      }
      assert init[j] == lines[j];
      LastDefinitionWins(env, init, j, name, value);
    }
  }

  /** Comment lines, and lines without '=', never set anything. */
  lemma {:induction false} SkippedLinesSetNothing(env: map<string, string>, lines: seq<string>)
    requires forall i | 0 <= i < |lines| :: lines[i] == [] || lines[i][0] == '#' || '=' !in lines[i]
    ensures Load(env, lines) == Loaded(env, true)
  {
    if lines != [] {
      var last := lines[|lines| - 1];
      SkippedLinesSetNothing(env, lines[..|lines| - 1]);
    }
  }

  /** The loader: None stands for a file that fopen could not open. Each
      line is split as written, so its '\n' stays in the value. */
  method LoadEnvironment(stream: Option<seq<string>>, env: map<string, string>) returns (status: int, env': map<string, string>)
    ensures stream.None? ==> status == -1 && env' == env
    ensures stream.Some? ==> env' == Load(env, stream.value).env && (status == 0 <==> Load(env, stream.value).ok)
    ensures status == 0 || status == -1
  {
    if stream.None? {
      return -1, env;
    }
    var lines := stream.value;
    env' := env;
    status := 0;
    var i := 0;
    while i < |lines|
      invariant 0 <= i <= |lines|
      invariant Load(env, lines[..i]) == Loaded(env', true)
    {
      assert lines[..i + 1][..i] == lines[..i];
      var entry := ParseLineAsWritten(lines[i]);
      if entry.Some? {
        if SetenvFails(entry.value) {
          status := -1;
          LoadStops(env, lines, i + 1);
          return;
        }
        env' := env'[entry.value.name := entry.value.value];
      }
      i := i + 1;
    }
    assert lines[..i] == lines;
  }

  // ---------------------------------------------------------------------
  // Recipes (the loop in main)

  /** A recipe name holds no '/' and does not start with '.'. */
  function ValidRecipe(name: string): (ok: bool)
    ensures ok <==> '/' !in name && (name == [] || name[0] != '.')
  {
    IndexOf(name, '/').None? && (name == [] || name[0] != '.')
  }

  /** The executable of a recipe: "/app/" followed by its name. */
  function RecipePath(name: string): string {
    "/app/" + name
  }

  /** The path of a valid recipe names an entry directly inside /app that
      is neither /app itself nor its parent nor a hidden file, and the
      name reads back from it. */
  lemma RecipePathConfined(name: string)
    requires ValidRecipe(name)
    ensures StartsWith(RecipePath(name), "/app/") && RecipePath(name)[5..] == name
    ensures '/' !in RecipePath(name)[5..]
    ensures RecipePath(name)[5..] != ".." && RecipePath(name)[5..] != "."
  {
    assert RecipePath(name)[5..] == name;
  }

  /** "../escape" is refused, whatever lies in /app. */
  lemma EscapeRejected()
    ensures !ValidRecipe("../escape")
  {
    assert "../escape"[2] == '/';
  }

  datatype Termination = Exited(status: int) | Signaled(signal: int) | OtherCondition

  datatype Run = Run(exit: Exit, calls: seq<Call>, lines: seq<string>)

  function StartLine(name: string): string {
    "Starting recipe " + name + " at " + RecipePath(name) + "\n"
  }

  function DoneLine(name: string): string {
    "Recipe " + name + " completed successfully\n"
  }

  /** Recipe i runs and exits with status 0. */
  predicate RecipeSucceeds(recipes: seq<string>, i: nat, os: Call -> Reply, term: nat -> Termination)
    requires i < |recipes|
  {
    ValidRecipe(recipes[i]) && os(Fork(i, recipes[i])).Done? &&
    os(Waitpid(i, recipes[i])).Done? && term(i) == Exited(0)
  }

  /** One turn of the loop: the recipe at argument position i. */
  function RunOne(name: string, i: nat, os: Call -> Reply, term: nat -> Termination): Run {
    if !ValidRecipe(name) then Run(Failure("Invalid recipe name " + name), [], [])
    else
      var fork := Fork(i, name);
      var wait := Waitpid(i, name);
      if !os(fork).Done? then Run(Failure("fork"), [fork], [StartLine(name)])
      else if !os(wait).Done? then Run(Failure("waitpid"), [fork, wait], [StartLine(name)])
      else Reap(name, term(i), [fork, wait])
  }

  /** How the loop reports the termination of a recipe it waited for. */
  function Reap(name: string, t: Termination, calls: seq<Call>): Run {
    if t.Exited? then
      if t.status == 0 then Run(Success, calls, [StartLine(name), DoneLine(name)])
      else Run(Failure("Recipe " + name + " failed with status " + Decimal(t.status)), calls, [StartLine(name)])
    else if t.Signaled? then
      Run(Failure("Recipe " + name + " terminated by signal " + Decimal(t.signal)), calls, [StartLine(name)])
    else Run(Failure("Unknown condition at termination of recipe " + name), calls, [StartLine(name)])
  }

  /** The recipes from position `from` on, run one at a time; the first
      that fails ends the run. */
  function Orchestrate(recipes: seq<string>, from: nat, os: Call -> Reply, term: nat -> Termination): Run
    decreases |recipes| - from
  {
    if from >= |recipes| then Run(Success, [], [])
    else
      var one := RunOne(recipes[from], from, os, term);
      if one.exit.Failure? then one
      else
        var rest := Orchestrate(recipes, from + 1, os, term);
        Run(rest.exit, one.calls + rest.calls, one.lines + rest.lines)
  }

  /** The run succeeds exactly when every recipe runs and exits 0. */
  lemma {:induction false} OrchestrateSucceedsIff(recipes: seq<string>, from: nat, os: Call -> Reply, term: nat -> Termination)
    ensures Orchestrate(recipes, from, os, term).exit == Success <==>
      forall i | from <= i < |recipes| :: RecipeSucceeds(recipes, i, os, term)
    decreases |recipes| - from
  {
    if from < |recipes| {
      OrchestrateSucceedsIff(recipes, from + 1, os, term);
      var one := RunOne(recipes[from], from, os, term);
      assert one.exit == Success <==> RecipeSucceeds(recipes, from, os, term);
      if forall i | from <= i < |recipes| :: RecipeSucceeds(recipes, i, os, term) {
        assert RecipeSucceeds(recipes, from, os, term);
      }
    }
  }

  /** On success every recipe, in argument order, has its "Starting" line
      followed by its "completed successfully" line, and each has been
      forked and waited for. */
  lemma SuccessTrace(recipes: seq<string>, from: nat, os: Call -> Reply, term: nat -> Termination)
    requires from <= |recipes|
    requires Orchestrate(recipes, from, os, term).exit == Success
    ensures var run := Orchestrate(recipes, from, os, term);
      |run.lines| == 2 * (|recipes| - from) && |run.calls| == 2 * (|recipes| - from) &&
      forall i | from <= i < |recipes| ::
        run.lines[2 * (i - from)] == StartLine(recipes[i]) && run.lines[2 * (i - from) + 1] == DoneLine(recipes[i]) &&
        run.calls[2 * (i - from)] == Fork(i, recipes[i]) && run.calls[2 * (i - from) + 1] == Waitpid(i, recipes[i])
  {
    SuccessLength(recipes, from, os, term);
    SuccessRun(recipes, from, os, term);
    var lines, calls := SuccessLines(recipes, from), SuccessCalls(recipes, from);
    forall i | from <= i < |recipes|
      ensures 2 * (i - from) + 1 < |lines| && 2 * (i - from) + 1 < |calls|
      ensures lines[2 * (i - from)] == StartLine(recipes[i]) && lines[2 * (i - from) + 1] == DoneLine(recipes[i])
      ensures calls[2 * (i - from)] == Fork(i, recipes[i]) && calls[2 * (i - from) + 1] == Waitpid(i, recipes[i])
    {
      SuccessLinesAt(recipes, from, i);
      SuccessCallsAt(recipes, from, i);
    }
  }

  lemma {:induction false} SuccessLength(recipes: seq<string>, from: nat, os: Call -> Reply, term: nat -> Termination)
    requires from <= |recipes|
    requires Orchestrate(recipes, from, os, term).exit == Success
    ensures |Orchestrate(recipes, from, os, term).lines| == 2 * (|recipes| - from)
    ensures |Orchestrate(recipes, from, os, term).calls| == 2 * (|recipes| - from)
    decreases |recipes| - from
  {
    if from < |recipes| {
      var name := recipes[from];
      var one := RunOne(name, from, os, term);
      assert one.exit == Success;
      assert one == Run(Success, [Fork(from, name), Waitpid(from, name)], [StartLine(name), DoneLine(name)]);
      SuccessLength(recipes, from + 1, os, term);
    }
  }

  /** One recipe succeeds exactly when it runs and exits 0; it then forks
      and waits, printing its two lines, and any call it makes concerns its
      own position. */
  lemma RunOneOutcome(recipes: seq<string>, i: nat, os: Call -> Reply, term: nat -> Termination)
    requires i < |recipes|
    ensures var one := RunOne(recipes[i], i, os, term);
      (one.exit == Success <==> RecipeSucceeds(recipes, i, os, term)) &&
      (one.exit == Success || one.exit.Failure?) &&
      (forall c | c in one.calls :: (c.Fork? || c.Waitpid?) && c.position == i) &&
      |one.calls| <= 2
    ensures RecipeSucceeds(recipes, i, os, term) ==>
      RunOne(recipes[i], i, os, term) == Run(Success, [Fork(i, recipes[i]), Waitpid(i, recipes[i])], [StartLine(recipes[i]), DoneLine(recipes[i])])
  {
  }

  /** A successful run begins with the first recipe's two calls and two
      lines. */
  lemma SuccessHead(recipes: seq<string>, from: nat, os: Call -> Reply, term: nat -> Termination)
    requires from < |recipes|
    requires Orchestrate(recipes, from, os, term).exit == Success
    ensures var run, rest, name := Orchestrate(recipes, from, os, term), Orchestrate(recipes, from + 1, os, term), recipes[from];
      rest.exit == Success &&
      run.calls == [Fork(from, name), Waitpid(from, name)] + rest.calls &&
      run.lines == [StartLine(name), DoneLine(name)] + rest.lines
  {
    OrchestrateStep(recipes, from, os, term);
    RunOneOutcome(recipes, from, os, term);
  }

  lemma PairThen<T>(x: T, y: T, rest: seq<T>, n: nat)
    ensures ([x, y] + rest)[0] == x && ([x, y] + rest)[1] == y
    ensures n < |rest| ==> ([x, y] + rest)[n + 2] == rest[n]
  {
  }

  /** The lines and calls of a run in which every recipe from `from` on
      succeeds. */
  function SuccessLines(recipes: seq<string>, from: nat): seq<string>
    decreases |recipes| - from
  {
    if from >= |recipes| then []
    else [StartLine(recipes[from]), DoneLine(recipes[from])] + SuccessLines(recipes, from + 1)
  }

  function SuccessCalls(recipes: seq<string>, from: nat): seq<Call>
    decreases |recipes| - from
  {
    if from >= |recipes| then []
    else [Fork(from, recipes[from]), Waitpid(from, recipes[from])] + SuccessCalls(recipes, from + 1)
  }

  lemma {:induction false} SuccessRun(recipes: seq<string>, from: nat, os: Call -> Reply, term: nat -> Termination)
    requires Orchestrate(recipes, from, os, term).exit == Success
    ensures Orchestrate(recipes, from, os, term).lines == SuccessLines(recipes, from)
    ensures Orchestrate(recipes, from, os, term).calls == SuccessCalls(recipes, from)
    decreases |recipes| - from
  {
    if from < |recipes| {
      SuccessHead(recipes, from, os, term);
      SuccessRun(recipes, from + 1, os, term);
    }
  }

  lemma {:induction false} SuccessLinesAt(recipes: seq<string>, from: nat, i: nat)
    requires from <= i < |recipes|
    ensures var lines := SuccessLines(recipes, from);
      2 * (i - from) + 1 < |lines| &&
      lines[2 * (i - from)] == StartLine(recipes[i]) && lines[2 * (i - from) + 1] == DoneLine(recipes[i])
    decreases i - from
  {
    var rest := SuccessLines(recipes, from + 1);
    var start, done := StartLine(recipes[from]), DoneLine(recipes[from]);
    if i == from {
      PairThen(start, done, rest, 0);
    } else {
      SuccessLinesAt(recipes, from + 1, i);
      var j := 2 * (i - from - 1);
      PairThen(start, done, rest, j);
      PairThen(start, done, rest, j + 1);
    }
  }

  lemma {:induction false} SuccessCallsAt(recipes: seq<string>, from: nat, i: nat)
    requires from <= i < |recipes|
    ensures var calls := SuccessCalls(recipes, from);
      2 * (i - from) + 1 < |calls| &&
      calls[2 * (i - from)] == Fork(i, recipes[i]) && calls[2 * (i - from) + 1] == Waitpid(i, recipes[i])
    decreases i - from
  {
    var rest := SuccessCalls(recipes, from + 1);
    var fork, wait := Fork(from, recipes[from]), Waitpid(from, recipes[from]);
    if i == from {
      PairThen(fork, wait, rest, 0);
    } else {
      SuccessCallsAt(recipes, from + 1, i);
      var j := 2 * (i - from - 1);
      PairThen(fork, wait, rest, j);
      PairThen(fork, wait, rest, j + 1);
    }
  }

  /** If recipe k is the first that does not succeed, the run fails with
      that recipe's message, and no call concerns a recipe after k: no
      later recipe is started. An invalid name is refused before any fork
      for it. */
  lemma {:induction false} StopsAtFirstFailure(recipes: seq<string>, from: nat, os: Call -> Reply, term: nat -> Termination, k: nat)
    requires from <= k < |recipes| && !RecipeSucceeds(recipes, k, os, term)
    requires forall i | from <= i < k :: RecipeSucceeds(recipes, i, os, term)
    ensures var run := Orchestrate(recipes, from, os, term);
      run.exit == RunOne(recipes[k], k, os, term).exit && run.exit.Failure? &&
      (forall c | c in run.calls :: (c.Fork? || c.Waitpid?) && c.position <= k) &&
      |run.calls| == 2 * (k - from) + |RunOne(recipes[k], k, os, term).calls|
    decreases |recipes| - from
  {
    var one := RunOne(recipes[from], from, os, term);
    var rest := Orchestrate(recipes, from + 1, os, term);
    OrchestrateStep(recipes, from, os, term);
    RunOneOutcome(recipes, from, os, term);
    if from < k {
      StopsAtFirstFailure(recipes, from + 1, os, term, k);
      assert RecipeSucceeds(recipes, from, os, term);
      CallsWithin(one.calls, rest.calls, k);
    }
  }

  lemma CallsWithin(a: seq<Call>, b: seq<Call>, k: nat)
    requires forall c | c in a :: (c.Fork? || c.Waitpid?) && c.position <= k
    requires forall c | c in b :: (c.Fork? || c.Waitpid?) && c.position <= k
    ensures forall c | c in a + b :: (c.Fork? || c.Waitpid?) && c.position <= k
  {
  }

  /** When recipe `from` fails the run ends with its outcome; otherwise
      its calls and lines come before those of the rest. */
  lemma OrchestrateStep(recipes: seq<string>, from: nat, os: Call -> Reply, term: nat -> Termination)
    requires from < |recipes|
    ensures var one := RunOne(recipes[from], from, os, term);
      var rest := Orchestrate(recipes, from + 1, os, term);
      Orchestrate(recipes, from, os, term) ==
        if one.exit.Failure? then one else Run(rest.exit, one.calls + rest.calls, one.lines + rest.lines)
  {
  }

  lemma Regroup(calls: seq<Call>, more: seq<Call>, lines: seq<string>, printed: seq<string>, rest: Run)
    ensures Run(rest.exit, calls + (more + rest.calls), lines + (printed + rest.lines)) ==
      Run(rest.exit, (calls + more) + rest.calls, (lines + printed) + rest.lines)
  {
    assert calls + (more + rest.calls) == (calls + more) + rest.calls;
    assert lines + (printed + rest.lines) == (lines + printed) + rest.lines;
  }

  /** One turn of the loop in main: check the name, announce the recipe,
      fork it, wait for it and report how it ended. */
  method RunRecipe(recipe: string, argpos: nat, os: Call -> Reply, term: nat -> Termination)
    returns (exit: Exit, calls: seq<Call>, lines: seq<string>)
    ensures Run(exit, calls, lines) == RunOne(recipe, argpos, os, term)
  {
    if IndexOf(recipe, '/').None? && (recipe == [] || recipe[0] != '.') {
      var path := RecipePath(recipe);
      lines := ["Starting recipe " + recipe + " at " + path + "\n"];
      var fork := Fork(argpos, recipe);
      if !os(fork).Done? {
        return Failure("fork"), [fork], lines;
      }
      var wait := Waitpid(argpos, recipe);
      calls := [fork, wait];
      if !os(wait).Done? {
        return Failure("waitpid"), calls, lines;
      }
      var status := term(argpos);
      if status.Exited? {
        if status.status == 0 {
          lines := lines + ["Recipe " + recipe + " completed successfully\n"];
          exit := Success;
        } else {
          exit := Failure("Recipe " + recipe + " failed with status " + Decimal(status.status));
        }
      } else if status.Signaled? {
        exit := Failure("Recipe " + recipe + " terminated by signal " + Decimal(status.signal));
      } else {
        exit := Failure("Unknown condition at termination of recipe " + recipe);
      }
    } else {
      return Failure("Invalid recipe name " + recipe), [], [];
    }
  }

  method RunRecipes(recipes: seq<string>, os: Call -> Reply, term: nat -> Termination)
    returns (exit: Exit, calls: seq<Call>, lines: seq<string>)
    ensures Run(exit, calls, lines) == Orchestrate(recipes, 0, os, term)
  {
    calls, lines := [], [];
    var argpos := 0;
    while argpos != |recipes|
      invariant 0 <= argpos <= |recipes|
      invariant var rest := Orchestrate(recipes, argpos, os, term);
        Orchestrate(recipes, 0, os, term) == Run(rest.exit, calls + rest.calls, lines + rest.lines)
    {
      var status, more, printed := RunRecipe(recipes[argpos], argpos, os, term);
      OrchestrateStep(recipes, argpos, os, term);
      if status.Failure? {
        return status, calls + more, lines + printed;
      }
      Regroup(calls, more, lines, printed, Orchestrate(recipes, argpos + 1, os, term));
      calls, lines := calls + more, lines + printed;
      argpos := argpos + 1;
    }
    exit := Success;
  }

  // ---------------------------------------------------------------------
  // The whole run (main)

  const Root := "/mnt"
  const EnvironPath := "/app/environ"

  function LogPlan(args: Args): seq<Call> {
    if args.log.Some? then RedirectPlan(args.log.value) else []
  }

  /** Every setup call, in the order main makes them. */
  function SetupPlan(args: Args, uid: Id, gid: Id): seq<Call> {
    Isolation(LogPlan(args), uid, gid, RootPlan(Root, args))
  }

  /** The calls of main from clearenv to the group map, then `root`. */
  function Isolation(log: seq<Call>, uid: Id, gid: Id, root: seq<Call>): seq<Call> {
    [ClearEnv] + (log + ([Unshare] + (IdMapPlan(UidMapPath, uid) +
      (DenyPlan(SetgroupsPath) + (IdMapPlan(GidMapPath, gid) + root)))))
  }

  /** setgroups is denied before the gid map is written, the gid map is
      written after the uid map, and the root is assembled last. */
  lemma SetupOrder(args: Args, uid: Id, gid: Id)
    ensures var plan := SetupPlan(args, uid, gid); var n := |LogPlan(args)|;
      |plan| == 8 + n + |RootPlan(Root, args)| &&
      plan[0] == ClearEnv && plan[1..1 + n] == LogPlan(args) && plan[1 + n] == Unshare &&
      plan[2 + n] == Open(UidMapPath) && plan[3 + n] == Write(UidMapPath, IdMapRecord(uid)) &&
      plan[4 + n] == Open(SetgroupsPath) && plan[5 + n] == Write(SetgroupsPath, "deny") &&
      plan[6 + n] == Open(GidMapPath) && plan[7 + n] == Write(GidMapPath, IdMapRecord(gid)) &&
      plan[8 + n..] == RootPlan(Root, args)
  {
    IsolationOrder(LogPlan(args), uid, gid, RootPlan(Root, args));
  }

  lemma IsolationOrder(log: seq<Call>, uid: Id, gid: Id, r: seq<Call>)
    ensures var plan := Isolation(log, uid, gid, r); var n := |log|;
      |plan| == 8 + n + |r| &&
      plan[0] == ClearEnv && plan[1..1 + n] == log && plan[1 + n] == Unshare &&
      plan[2 + n] == Open(UidMapPath) && plan[3 + n] == Write(UidMapPath, IdMapRecord(uid)) &&
      plan[4 + n] == Open(SetgroupsPath) && plan[5 + n] == Write(SetgroupsPath, "deny") &&
      plan[6 + n] == Open(GidMapPath) && plan[7 + n] == Write(GidMapPath, IdMapRecord(gid)) &&
      plan[8 + n..] == r
  {
    var n := |log|;
    var g := IdMapPlan(GidMapPath, gid) + r;
    var d := DenyPlan(SetgroupsPath) + g;
    var u := IdMapPlan(UidMapPath, uid) + d;
    var l := log + ([Unshare] + u);
    var plan := [ClearEnv] + l;
    assert g[2..] == r;
    assert d[2..] == g;
    assert u[2..] == d;
    assert l[n + 1..] == u && l[n] == Unshare && l[..n] == log;
    assert plan[1..] == l;
    assert plan[8 + n..] == l[7 + n..] == u[6..] == d[4..] == g[2..];
  }

  /** Moving past one stage of a plan: after the calls in `trace`, the
      stage and then `later` remain. */
  lemma Advance(whole: seq<Call>, trace: seq<Call>, stage: seq<Call>, later: seq<Call>, os: Call -> Reply)
    requires Attempt(whole, os) == After(trace, Attempt(stage + later, os))
    ensures Attempt(stage, os).ok ==> (Attempt(stage, os).calls == stage &&
      Attempt(whole, os) == After(trace + stage, Attempt(later, os)))
    ensures !Attempt(stage, os).ok ==> Attempt(whole, os) == Outcome(trace + Attempt(stage, os).calls, false)
  {
    AttemptAppend(stage, later, os);
    AttemptSucceedsIff(stage, os);
  }

  /** How the isolation stages end: the first stage that fails decides
      the message (both group stages print the user id). */
  function IsolationExit(args: Args, uid: Id, gid: Id, os: Call -> Reply): Exit {
    if !Succeeds(ClearEnv, os(ClearEnv)) then Failure("clearenv")
    else if args.log.Some? && !Attempt(RedirectPlan(args.log.value), os).ok then Failure("hvn_pkgen_log: " + args.log.value)
    else if !Succeeds(Unshare, os(Unshare)) then Failure("unshare")
    else if !Attempt(IdMapPlan(UidMapPath, uid), os).ok then Failure("Unable to map user id " + Decimal(AsInt32(uid)) + " to zero")
    else if !Attempt(DenyPlan(SetgroupsPath), os).ok || !Attempt(IdMapPlan(GidMapPath, gid), os).ok then
      Failure("Unable to map group id " + Decimal(AsInt32(uid)) + " to zero")
    else Success
  }

  /** How setup ends: the isolation stages, then the new root. */
  function SetupExit(args: Args, uid: Id, gid: Id, os: Call -> Reply): Exit {
    var isolated := IsolationExit(args, uid, gid, os);
    if isolated.Failure? then isolated
    else if !Attempt(RootPlan(Root, args), os).ok then Failure("Unable to create new root mountpoint")
    else Success
  }

  /** Setup succeeds stage by stage exactly when every call of the whole
      setup plan succeeds. */
  lemma SetupExitSuccessIff(args: Args, uid: Id, gid: Id, os: Call -> Reply)
    ensures SetupExit(args, uid, gid, os) == Success <==> Attempt(SetupPlan(args, uid, gid), os).ok
  {
    var g := IdMapPlan(GidMapPath, gid) + RootPlan(Root, args);
    var d := DenyPlan(SetgroupsPath) + g;
    var u := IdMapPlan(UidMapPath, uid) + d;
    var n := [Unshare] + u;
    var l := LogPlan(args) + n;
    AttemptAppend(IdMapPlan(GidMapPath, gid), RootPlan(Root, args), os);
    AttemptAppend(DenyPlan(SetgroupsPath), g, os);
    AttemptAppend(IdMapPlan(UidMapPath, uid), d, os);
    AttemptAppend([Unshare], u, os);
    AttemptAppend(LogPlan(args), n, os);
    AttemptAppend([ClearEnv], l, os);
    assert Attempt([Unshare], os).ok == Succeeds(Unshare, os(Unshare));
    assert Attempt([ClearEnv], os).ok == Succeeds(ClearEnv, os(ClearEnv));
    assert SetupPlan(args, uid, gid) == [ClearEnv] + l;
  }

  /** main from clearenv to the group map, with `root` still to run after
      it. Exits with the source's message at the first failing call. */
  method Isolate(args: Args, uid: Id, gid: Id, os: Call -> Reply, ghost root: seq<Call>) returns (exit: Exit, trace: seq<Call>)
    ensures exit == IsolationExit(args, uid, gid, os)
    ensures exit.Failure? ==> Attempt(Isolation(LogPlan(args), uid, gid, root), os) == Outcome(trace, false)
    ensures exit.Success? ==> Attempt(Isolation(LogPlan(args), uid, gid, root), os) == After(trace, Attempt(root, os))
  {
    ghost var whole := Isolation(LogPlan(args), uid, gid, root);
    ghost var later := IdMapPlan(UidMapPath, uid) + (DenyPlan(SetgroupsPath) + (IdMapPlan(GidMapPath, gid) + root));
    ghost var rest;
    var ok, status, t;
    ok, trace, rest := Step(ClearEnv, os, [], whole);
    if !ok {
      return Failure("clearenv"), trace;
    }

    Advance(whole, trace, LogPlan(args), [Unshare] + later, os);
    if args.log.Some? {
      status, t := Log(args.log.value, os);
      trace := trace + t;
      if status != 0 {
        return Failure("hvn_pkgen_log: " + args.log.value), trace;
      }
    } else {
      assert trace + LogPlan(args) == trace;
    }
    assert Attempt(whole, os) == After(trace, Attempt([Unshare] + later, os));

    ok, trace, rest := Step(Unshare, os, trace, [Unshare] + later);
    if !ok {
      return Failure("unshare"), trace;
    }
    assert rest == later;

    Advance(whole, trace, IdMapPlan(UidMapPath, uid), DenyPlan(SetgroupsPath) + (IdMapPlan(GidMapPath, gid) + root), os);
    status, t := IdMapZero(UidMapPath, uid, os);
    trace := trace + t;
    if status != 0 {
      return Failure("Unable to map user id " + Decimal(AsInt32(uid)) + " to zero"), trace;
    }

    // The message for a failing group mapping prints the user id.
    Advance(whole, trace, DenyPlan(SetgroupsPath), IdMapPlan(GidMapPath, gid) + root, os);
    status, t := Deny(SetgroupsPath, os);
    trace := trace + t;
    if status != 0 {
      return Failure("Unable to map group id " + Decimal(AsInt32(uid)) + " to zero"), trace;
    }
    Advance(whole, trace, IdMapPlan(GidMapPath, gid), root, os);
    status, t := IdMapZero(GidMapPath, gid, os);
    trace := trace + t;
    if status != 0 {
      return Failure("Unable to map group id " + Decimal(AsInt32(uid)) + " to zero"), trace;
    }
    exit := Success;
  }

  /** main up to the loading of the environment: isolation, then the new
      root. Exits with the source's message at the first failing call. */
  method Setup(args: Args, uid: Id, gid: Id, os: Call -> Reply) returns (exit: Exit, trace: seq<Call>)
    ensures Outcome(trace, exit == Success) == Attempt(SetupPlan(args, uid, gid), os)
    ensures exit == SetupExit(args, uid, gid, os)
  {
    exit, trace := Isolate(args, uid, gid, os, RootPlan(Root, args));
    if exit.Failure? {
      return;
    }
    var status, t := MakeRoot(Root, args, os);
    trace := trace + t;
    if status != 0 {
      return Failure("Unable to create new root mountpoint"), trace;
    }
  }

  /** hvn-pkgen from its command line to its exit. The calls attempted and
      the lines printed on standard output are returned with the exit and
      the environment the recipes inherit. */
  method Launch(events: seq<Event>, operands: seq<string>, uid: Id, gid: Id,
                os: Call -> Reply, environ: seq<string>, term: nat -> Termination)
    returns (exit: Exit, trace: seq<Call>, lines: seq<string>, env: map<string, string>)
    ensures Parse(events, operands).UsageError? ==>
      exit == Failure(Parse(events, operands).message) && trace == [] && lines == []
    ensures Parse(events, operands).Parsed? && !Attempt(SetupPlan(Parse(events, operands).args, uid, gid), os).ok ==>
      exit == SetupExit(Parse(events, operands).args, uid, gid, os) && exit.Failure? && lines == [] &&
      trace == Attempt(SetupPlan(Parse(events, operands).args, uid, gid), os).calls
    ensures Parse(events, operands).Parsed? && Attempt(SetupPlan(Parse(events, operands).args, uid, gid), os).ok ==>
      var p := Parse(events, operands);
      var run := Orchestrate(p.recipes, 0, os, term);
      if os(OpenStream(EnvironPath)).Done? && Load(map[], environ).ok then
        exit == run.exit && lines == run.lines && env == Load(map[], environ).env &&
        trace == SetupPlan(p.args, uid, gid) + [OpenStream(EnvironPath)] + run.calls
      else
        exit == Failure("Unable to load app environment") && lines == [] &&
        trace == SetupPlan(p.args, uid, gid) + [OpenStream(EnvironPath)]
  {
    lines, env := [], map[];
    var parsed := ParseArgs(events, operands);
    if parsed.UsageError? {
      return Failure(parsed.message), [], [], env;
    }
    exit, trace := Setup(parsed.args, uid, gid, os);
    if exit.Failure? {
      return;
    }
    AttemptSucceedsIff(SetupPlan(parsed.args, uid, gid), os);

    trace := trace + [OpenStream(EnvironPath)];
    var stream := if os(OpenStream(EnvironPath)).Done? then Some(environ) else None;
    var status;
    status, env := LoadEnvironment(stream, map[]);
    if status != 0 {
      return Failure("Unable to load app environment"), trace, lines, env;
    }

    var calls;
    exit, calls, lines := RunRecipes(parsed.recipes, os, term);
    trace := trace + calls;
  }
}
