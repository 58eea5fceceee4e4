/**
 * `CupsPrinter::JobGuard`: a move-only handle on a job id and a destination name that cancels the job
 * when it is destroyed while armed. Moving transfers the armed flag and disarms the source, so among a
 * guard and everything moved out of it at most one is ever armed and at most one cancel is issued.
 */
module JobGuards {
  import opened Expected
  import opened Native

  /** The fields of a guard: job id, destination name, armed flag. */
  datatype GuardState = GuardState(jobId: int, name: string, armed: bool)

  /** A guard that was moved from: its id stays, it is disarmed, and its name is whatever the moved-from
      string holds, here `leftover`. */
  function MovedFrom(g: GuardState, leftover: string): (s: GuardState)
    ensures s.jobId == g.jobId && !s.armed
  {
    g.(name := leftover, armed := false)
  }

  /** The calls the destructor makes: one cancel for the guard's job when the id is positive and the
      guard is armed, nothing otherwise. */
  function Destruction(g: GuardState): (calls: seq<NativeCall>)
    ensures |calls| <= 1
    ensures calls != [] <==> g.jobId > 0 && g.armed
    ensures forall c :: c in calls ==> c == CupsCancelJob(g.name, g.jobId)
  {
    if g.jobId > 0 && g.armed then [CupsCancelJob(g.name, g.jobId)] else []
  }

  class JobGuard {
    var jobId: int
    var name: string
    var armed: bool

    function State(): GuardState
      reads this
    {
      GuardState(jobId, name, armed)
    }

    /** `JobGuard(jobId, name)`: armed from the start. */
    constructor (jobId: int, name: string)
      ensures State() == GuardState(jobId, name, true)
    {
      this.jobId := jobId;
      this.name := name;
      this.armed := true;
    }

    /** The move constructor: takes over id, name and armed flag; the source is left disarmed. */
    constructor Move(other: JobGuard)
      modifies other
      ensures State() == old(other.State())
      ensures other.State() == MovedFrom(old(other.State()), other.name)
    {
      jobId := other.jobId;
      name := other.name;
      armed := other.armed;
      new;
      other.armed := false;
    }

    /** Move assignment: to itself, nothing changes; otherwise this guard takes over the source's id, name
        and armed flag, without cancelling what it guarded before, and the source is left disarmed. */
    method MoveAssign(other: JobGuard)
      modifies this, other
      ensures other == this ==> State() == old(State())
      ensures other != this ==> State() == old(other.State())
      ensures other != this ==> other.State() == MovedFrom(old(other.State()), other.name)
    {
      if other == this {
        return;
      }
      jobId := other.jobId;
      name := other.name;
      armed := other.armed;
      other.armed := false;
    }

    /** `dismiss`: disarms the guard and changes nothing else. */
    method Dismiss()
      modifies this
      ensures State() == old(State()).(armed := false)
      ensures Destruction(State()) == []
    {
      armed := false;
    }

    /** The destructor, with the calls it makes into the library. */
    method Destroy() returns (ghost calls: seq<NativeCall>)
      ensures calls == Destruction(State())
    {
      calls := [];
      if jobId > 0 && armed {
        calls := [CupsCancelJob(name, jobId)];
      }
    }
  }

  /** A family of guards: those moved out of one guard, by index; `None` marks a destroyed guard. */
  type Family = seq<Option<GuardState>>

  /** What a program can do with the guards of a family. */
  datatype GuardOp =
    | OpMoveConstruct(src: nat, leftover: string)          // a new guard moved out of guard `src`
    | OpMoveAssign(dst: nat, src: nat, leftover: string)   // guard `dst` = std::move(guard `src`)
    | OpDismiss(g: nat)
    | OpDestroy(g: nat)

  function ArmedAt(fam: Family, i: nat): nat
    requires i < |fam|
  {
    if fam[i].Some? && fam[i].value.armed then 1 else 0
  }

  /** How many live guards of the family are armed. */
  function ArmedCount(fam: Family): nat
  {
    if fam == [] then 0 else ArmedCount(fam[..|fam| - 1]) + ArmedAt(fam, |fam| - 1)
  }

  lemma {:induction false} ArmedCountUpdate(fam: Family, i: nat, x: Option<GuardState>)
    requires i < |fam|
    ensures ArmedCount(fam[i := x]) + ArmedAt(fam, i) == ArmedCount(fam) + ArmedAt(fam[i := x], i)
    decreases |fam|
  {
    var fam' := fam[i := x];
    var n := |fam| - 1;
    if i < n {
      assert fam'[..n] == fam[..n][i := x];
      ArmedCountUpdate(fam[..n], i, x);
    } else {
      assert fam'[..n] == fam[..n];
    }
  }

  /** One operation: the new family and the calls it makes. An index that names no live guard makes the
      operation a no-op. */
  function Apply(fam: Family, op: GuardOp): (Family, seq<NativeCall>)
  {
    match op
    case OpMoveConstruct(s, leftover) =>
      if s < |fam| && fam[s].Some?
      then (fam[s := Some(MovedFrom(fam[s].value, leftover))] + [fam[s]], [])
      else (fam, [])
    case OpMoveAssign(d, s, leftover) =>
      if d < |fam| && s < |fam| && fam[d].Some? && fam[s].Some? && d != s
      then (fam[d := fam[s]][s := Some(MovedFrom(fam[s].value, leftover))], [])
      else (fam, [])
    case OpDismiss(g) =>
      if g < |fam| && fam[g].Some? then (fam[g := Some(fam[g].value.(armed := false))], []) else (fam, [])
    case OpDestroy(g) =>
      if g < |fam| && fam[g].Some? then (fam[g := None], Destruction(fam[g].value)) else (fam, [])
  }

  /** A sequence of operations: the final family and all calls made, in order. */
  function Run(fam: Family, ops: seq<GuardOp>): (Family, seq<NativeCall>)
    decreases |ops|
  {
    if ops == [] then (fam, [])
    else
      var (fam', calls) := Apply(fam, ops[0]);
      var (fam'', calls') := Run(fam', ops[1..]);
      (fam'', calls + calls')
  }

  /** Move-constructing a guard out of `a` does to the pair what `OpMoveConstruct` does to a one-guard
      family: the lemmas about `Run` speak of the class. */
  method MoveConstructAgrees(a: JobGuard) returns (b: JobGuard)
    modifies a
    ensures [Some(a.State()), Some(b.State())] == Apply([Some(old(a.State()))], OpMoveConstruct(0, a.name)).0
    ensures Apply([Some(old(a.State()))], OpMoveConstruct(0, a.name)).1 == []
  {
    b := new JobGuard.Move(a);
  }

  /** `d = std::move(s)` does to the pair what `OpMoveAssign` does to the family `[d, s]`, or to `[d]`
      when both are the same guard. */
  method MoveAssignAgrees(d: JobGuard, s: JobGuard)
    modifies d, s
    ensures d != s ==> [Some(d.State()), Some(s.State())] ==
                       Apply([Some(old(d.State())), Some(old(s.State()))], OpMoveAssign(0, 1, s.name)).0
    ensures d == s ==> [Some(d.State())] == Apply([Some(old(d.State()))], OpMoveAssign(0, 0, s.name)).0
  {
    d.MoveAssign(s);
  }

  /** `dismiss` does to the guard what `OpDismiss` does to a one-guard family. */
  method DismissAgrees(g: JobGuard)
    modifies g
    ensures [Some(g.State())] == Apply([Some(old(g.State()))], OpDismiss(0)).0
  {
    g.Dismiss();
  }

  /** The destructor makes the calls `OpDestroy` makes on a one-guard family, and leaves it empty. */
  method DestroyAgrees(g: JobGuard) returns (ghost calls: seq<NativeCall>)
    ensures calls == Apply([Some(g.State())], OpDestroy(0)).1
    ensures Apply([Some(g.State())], OpDestroy(0)).0 == [None]
  {
    calls := g.Destroy();
  }

  /** The invariant of a family guarding job `jobId` on `name`: armed guards plus cancels already issued
      number at most one, every armed guard holds that job, and every cancel is for that job. */
  ghost predicate Guarding(fam: Family, calls: seq<NativeCall>, jobId: int, name: string)
  {
    && ArmedCount(fam) + |calls| <= 1
    && (forall i :: 0 <= i < |fam| && fam[i].Some? && fam[i].value.armed ==>
          fam[i].value.jobId == jobId && fam[i].value.name == name)
    && (forall c :: c in calls ==> c == CupsCancelJob(name, jobId))
  }

  /** Replacing one guard keeps the family guarding when the replacement is disarmed or holds the job. */
  lemma ReplaceKeepsGuarding(fam: Family, calls: seq<NativeCall>, jobId: int, name: string, i: nat,
                             x: Option<GuardState>, extra: seq<NativeCall>)
    requires Guarding(fam, calls, jobId, name) && i < |fam|
    requires x.Some? && x.value.armed ==> x.value.jobId == jobId && x.value.name == name
    requires ArmedAt(fam[i := x], i) + |extra| <= ArmedAt(fam, i)
    requires forall c :: c in extra ==> c == CupsCancelJob(name, jobId)
    ensures Guarding(fam[i := x], calls + extra, jobId, name)
  {
    ArmedCountUpdate(fam, i, x);
  }

  lemma ApplyKeepsGuarding(fam: Family, calls: seq<NativeCall>, jobId: int, name: string, op: GuardOp)
    requires Guarding(fam, calls, jobId, name)
    ensures Guarding(Apply(fam, op).0, calls + Apply(fam, op).1, jobId, name)
  {
    match op
    case OpMoveConstruct(s, leftover) =>
      if s < |fam| && fam[s].Some? {
        var mid := fam[s := Some(MovedFrom(fam[s].value, leftover))];
        ReplaceKeepsGuarding(fam, calls, jobId, name, s, mid[s], []);
        ArmedCountUpdate(fam, s, mid[s]);
        var fam' := mid + [fam[s]];
        assert fam'[..|fam'| - 1] == mid;
        assert ArmedCount(fam') == ArmedCount(fam);
        assert calls + [] == calls;
      }
    case OpMoveAssign(d, s, leftover) =>
      if d < |fam| && s < |fam| && fam[d].Some? && fam[s].Some? && d != s {
        var mid := fam[d := fam[s]];
        ArmedCountUpdate(fam, d, fam[s]);
        ArmedCountUpdate(mid, s, Some(MovedFrom(fam[s].value, leftover)));
        assert calls + [] == calls;
      }
    case OpDismiss(g) =>
      if g < |fam| && fam[g].Some? {
        ReplaceKeepsGuarding(fam, calls, jobId, name, g, Some(fam[g].value.(armed := false)), []);
        assert calls + [] == calls;
      }
    case OpDestroy(g) =>
      if g < |fam| && fam[g].Some? {
        ReplaceKeepsGuarding(fam, calls, jobId, name, g, None, Destruction(fam[g].value));
      }
  }

  lemma {:induction false} RunKeepsGuarding(fam: Family, calls: seq<NativeCall>, jobId: int, name: string,
                                            ops: seq<GuardOp>)
    requires Guarding(fam, calls, jobId, name)
    ensures Guarding(Run(fam, ops).0, calls + Run(fam, ops).1, jobId, name)
    decreases |ops|
  {
    if ops != [] {
      var step := Apply(fam, ops[0]);
      var rest := Run(step.0, ops[1..]);
      assert Run(fam, ops) == (rest.0, step.1 + rest.1);
      ApplyKeepsGuarding(fam, calls, jobId, name, ops[0]);
      RunKeepsGuarding(step.0, calls + step.1, jobId, name, ops[1..]);
      assert calls + step.1 + rest.1 == calls + (step.1 + rest.1);
    }
  }

  /** Whatever is done with a fresh guard and the guards moved out of it, at most one of them is armed at
      any time and at most one cancel is issued, for the guarded job only. */
  lemma AtMostOneCancel(jobId: int, name: string, ops: seq<GuardOp>)
    ensures var (fam, calls) := Run([Some(GuardState(jobId, name, true))], ops);
            && ArmedCount(fam) + |calls| <= 1
            && forall c :: c in calls ==> c == CupsCancelJob(name, jobId)
  {
    var start: Family := [Some(GuardState(jobId, name, true))];
    assert start[..0] == [];
    RunKeepsGuarding(start, [], jobId, name, ops);
    assert [] + Run(start, ops).1 == Run(start, ops).1;
  }

  /** One move construction or destruction keeps the count of armed guards plus cancels issued. */
  lemma MoveOrDestroyKeepsCount(fam: Family, calls: seq<NativeCall>, jobId: int, name: string, op: GuardOp)
    requires jobId > 0 && Guarding(fam, calls, jobId, name)
    requires op.OpMoveConstruct? || op.OpDestroy?
    ensures ArmedCount(Apply(fam, op).0) + |Apply(fam, op).1| == ArmedCount(fam)
  {
    match op
    case OpMoveConstruct(s, leftover) =>
      if s < |fam| && fam[s].Some? {
        var mid := fam[s := Some(MovedFrom(fam[s].value, leftover))];
        ArmedCountUpdate(fam, s, mid[s]);
        var fam' := mid + [fam[s]];
        assert fam'[..|fam'| - 1] == mid;
      }
    case OpDestroy(g) =>
      if g < |fam| && fam[g].Some? {
        ArmedCountUpdate(fam, g, None);
      }
  }

  /** Moving a guard by construction and destroying guards never loses the obligation: while the job id is
      positive, the armed guards plus the cancels issued number exactly one. */
  lemma {:induction false} MovesKeepExactlyOne(fam: Family, calls: seq<NativeCall>, jobId: int, name: string,
                                               ops: seq<GuardOp>)
    requires jobId > 0 && Guarding(fam, calls, jobId, name) && ArmedCount(fam) + |calls| == 1
    requires forall op :: op in ops ==> op.OpMoveConstruct? || op.OpDestroy?
    ensures ArmedCount(Run(fam, ops).0) + |calls + Run(fam, ops).1| == 1
    decreases |ops|
  {
    if ops != [] {
      var step := Apply(fam, ops[0]);
      var rest := Run(step.0, ops[1..]);
      assert Run(fam, ops) == (rest.0, step.1 + rest.1);
      assert ops[0] in ops;
      ApplyKeepsGuarding(fam, calls, jobId, name, ops[0]);
      MoveOrDestroyKeepsCount(fam, calls, jobId, name, ops[0]);
      assert forall op :: op in ops[1..] ==> op in ops;
      MovesKeepExactlyOne(step.0, calls + step.1, jobId, name, ops[1..]);
      assert calls + step.1 + rest.1 == calls + (step.1 + rest.1);
    }
  }

  /** A guard on a positive job id that is never dismissed nor move-assigned: once it and every guard moved
      out of it are destroyed, exactly one cancel has been issued. */
  lemma ExactlyOneCancel(jobId: int, name: string, ops: seq<GuardOp>)
    requires jobId > 0
    requires forall op :: op in ops ==> op.OpMoveConstruct? || op.OpDestroy?
    ensures var (fam, calls) := Run([Some(GuardState(jobId, name, true))], ops);
            ArmedCount(fam) == 0 ==> calls == [CupsCancelJob(name, jobId)]
  {
    var start: Family := [Some(GuardState(jobId, name, true))];
    assert start[..0] == [];
    RunKeepsGuarding(start, [], jobId, name, ops);
    MovesKeepExactlyOne(start, [], jobId, name, ops);
    var calls := Run(start, ops).1;
    assert [] + calls == calls;
    if ArmedCount(Run(start, ops).0) == 0 {
      assert calls[0] in calls;
    }
  }
}
