/** The append-only log of one workflow. */
module Journal {
  import opened Prelude

  datatype Outcome = Completed(value: string) | Failed(message: string) | Unknown

  datatype Kind = Fetch

  datatype Step = Step(index: nat, kind: Kind, digest: string, outcome: Outcome)

  datatype JournalError =
    | OutOfOrder(expected: nat, got: nat)
    | StepCap(cap: nat)
    | AlreadySettled(index: nat)
    | Diverged(index: nat, recorded: string, replayed: string)

  /** What a script sees of a step; a step without an answer is a miss that keeps its slot. */
  datatype Slot = Answered(digest: string, value: string) | Refused(digest: string, message: string) | Null

  const U32_MAX: nat := 0xffff_ffff

  function Bounded(n: nat): nat { if n > U32_MAX then U32_MAX else n }

  /** From one moment of the log to a later one: nothing goes, nothing is re-keyed, and an answer
      once given stays. */
  ghost predicate Continues(was: seq<Step>, now: seq<Step>) {
    && |was| <= |now|
    && forall i :: 0 <= i < |was| ==>
         now[i].index == was[i].index && now[i].kind == was[i].kind && now[i].digest == was[i].digest
         && (was[i].outcome != Unknown ==> now[i].outcome == was[i].outcome)
  }

  lemma {:induction false} ContinuesOn(a: seq<Step>, b: seq<Step>, c: seq<Step>)
    requires Continues(a, b) && Continues(b, c)
    ensures Continues(a, c)
  {}

  function SlotOf(s: Step): Slot {
    match s.outcome
    case Completed(value) => Answered(s.digest, value)
    case Failed(message) => Refused(s.digest, message)
    case Unknown => Null
  }

  function ToScriptValue(steps: seq<Step>): seq<Slot> {
    if steps == [] then [] else [SlotOf(steps[0])] + ToScriptValue(steps[1..])
  }

  lemma {:induction false} SlotAt(steps: seq<Step>, i: nat)
    requires i < |steps|
    ensures |ToScriptValue(steps)| == |steps| && ToScriptValue(steps)[i] == SlotOf(steps[i])
  {
    if i > 0 {
      SlotAt(steps[1..], i - 1);
    } else {
      ScriptLength(steps);
    }
  }

  lemma {:induction false} ScriptLength(steps: seq<Step>)
    ensures |ToScriptValue(steps)| == |steps|
  {
    if steps != [] {
      ScriptLength(steps[1..]);
    }
  }

  /** What a script sees of a step: its request answered with the value, refused with the message, or nothing yet. */
  lemma {:induction false} ScriptSees(steps: seq<Step>, i: nat)
    requires i < |steps| && |ToScriptValue(steps)| == |steps|
    ensures forall d, v ::
              ToScriptValue(steps)[i] == Answered(d, v) <==> steps[i].digest == d && steps[i].outcome == Completed(v)
    ensures forall d, m ::
              ToScriptValue(steps)[i] == Refused(d, m) <==> steps[i].digest == d && steps[i].outcome == Failed(m)
    ensures ToScriptValue(steps)[i] == Null <==> steps[i].outcome == Unknown
  {
    SlotAt(steps, i);
  }

  /** Whatever a script has been answered, every later pass answers again, at the same place. */
  lemma {:induction false} ScriptStable(was: seq<Step>, now: seq<Step>, i: nat)
    requires Continues(was, now) && i < |was|
    ensures |ToScriptValue(was)| == |was| && |ToScriptValue(now)| == |now|
    ensures ToScriptValue(was)[i] != Null ==> ToScriptValue(now)[i] == ToScriptValue(was)[i]
  {
    SlotAt(was, i);
    SlotAt(now, i);
  }

  // ---- Runs ------------------------------------------------------------------------------------

  datatype Op =
    | Append(index: nat, kind: Kind, digest: string, outcome: Outcome)
    | Settle(index: nat, digest: string, outcome: Outcome)

  /** Why an operation is refused, if it is. */
  function Refusal(steps: seq<Step>, cap: nat, op: Op): Option<JournalError> {
    match op
    case Append(index, _, _, _) =>
      if index != Bounded(|steps|) then Some(OutOfOrder(Bounded(|steps|), index))
      else if |steps| >= cap then Some(StepCap(cap))
      else None
    case Settle(index, digest, _) =>
      if index >= |steps| then Some(OutOfOrder(Bounded(|steps|), index))
      else if steps[index].digest != digest then Some(Diverged(index, steps[index].digest, digest))
      else if steps[index].outcome != Unknown then Some(AlreadySettled(index))
      else None
  }

  /** The log after an operation; a refused one leaves it alone. */
  function After(steps: seq<Step>, cap: nat, op: Op): seq<Step> {
    if Refusal(steps, cap, op).Some? then steps
    else
      match op
      case Append(index, kind, digest, outcome) => steps + [Step(index, kind, digest, outcome)]
      case Settle(index, _, outcome) => steps[index := steps[index].(outcome := outcome)]
  }

  function Run(steps: seq<Step>, cap: nat, ops: seq<Op>): seq<Step>
    decreases ops
  {
    if ops == [] then steps else Run(After(steps, cap, ops[0]), cap, ops[1..])
  }

  /** Each step carries its own position, and the log is within its cap. */
  predicate Sound(steps: seq<Step>, cap: nat) {
    |steps| <= cap <= U32_MAX + 1 && forall i :: 0 <= i < |steps| ==> steps[i].index == i
  }

  lemma {:induction false} RunAppend(steps: seq<Step>, cap: nat, a: seq<Op>, b: seq<Op>)
    ensures Run(steps, cap, a + b) == Run(Run(steps, cap, a), cap, b)
    decreases a
  {
    if a == [] {
      assert a + b == b;
    } else {
      assert (a + b)[1..] == a[1..] + b;
      RunAppend(After(steps, cap, a[0]), cap, a[1..], b);
    }
  }

  lemma {:induction false} RunContinues(steps: seq<Step>, cap: nat, ops: seq<Op>)
    requires Sound(steps, cap)
    ensures Continues(steps, Run(steps, cap, ops)) && Sound(Run(steps, cap, ops), cap)
    decreases ops
  {
    if ops != [] {
      var next := After(steps, cap, ops[0]);
      RunContinues(next, cap, ops[1..]);
      ContinuesOn(steps, next, Run(next, cap, ops[1..]));
    }
  }

  /** Over any run of appends and settles, accepted or refused, a script that replays later finds every
      answer it has been given, at the same place; and steps keep distinct keys. */
  lemma {:induction false} RunStable(cap: nat, a: seq<Op>, b: seq<Op>, i: nat)
    requires cap <= U32_MAX + 1 && i < |Run([], cap, a)|
    ensures var was, now := Run([], cap, a), Run([], cap, a + b);
            && i < |now| && now[i].index == i && now[i].digest == was[i].digest
            && |ToScriptValue(was)| == |was| && |ToScriptValue(now)| == |now|
            && (ToScriptValue(was)[i] != Null ==> ToScriptValue(now)[i] == ToScriptValue(was)[i])
  {
    var was := Run([], cap, a);
    RunContinues([], cap, a);
    RunAppend([], cap, a, b);
    RunContinues(was, cap, b);
    ScriptStable(was, Run(was, cap, b), i);
  }

  /** The answer of an accepted operation is what every later pass of the script sees at its step. */
  lemma {:induction false} AnswerReaches(cap: nat, a: seq<Op>, op: Op, b: seq<Op>)
    requires cap <= U32_MAX + 1 && Refusal(Run([], cap, a), cap, op).None? && op.outcome != Unknown
    ensures var seen := ToScriptValue(Run([], cap, a + [op] + b));
            && op.index < |seen|
            && seen[op.index] == if op.outcome.Completed? then Answered(op.digest, op.outcome.value)
                                 else Refused(op.digest, op.outcome.message)
  {
    var was := Run([], cap, a);
    var now := After(was, cap, op);
    var later := Run(now, cap, b);
    RunContinues([], cap, a);
    RunAppend([], cap, a + [op], b);
    RunAppend([], cap, a, [op]);
    assert Run(was, cap, [op]) == now by {
      assert [op][1..] == [];
      assert Run(now, cap, []) == now;
    }
    RunContinues(was, cap, [op]);
    RunContinues(now, cap, b);
    assert now[op.index].outcome == op.outcome && now[op.index].digest == op.digest;
    ScriptLength(later);
    SlotAt(later, op.index);
  }

  /** No step is answered twice: once an answer is in, no operation on that step is accepted. */
  lemma {:induction false} AnsweredOnce(cap: nat, a: seq<Op>, b: seq<Op>, op: Op)
    requires cap <= U32_MAX + 1 && op.index < |Run([], cap, a)| && Run([], cap, a)[op.index].outcome != Unknown
    ensures Refusal(Run([], cap, a + b), cap, op).Some?
  {
    var was := Run([], cap, a);
    RunContinues([], cap, a);
    RunAppend([], cap, a, b);
    RunContinues(was, cap, b);
    var now := Run(was, cap, b);
    assert now[op.index].outcome == was[op.index].outcome;
    assert op.index < |now| <= U32_MAX + 1;
  }

  class Log {
    const workflowId: string
    const stepCap: nat
    var steps: seq<Step>

    predicate Valid() reads this { Sound(steps, stepCap) }

    constructor (workflowId: string, stepCap: nat)
      requires stepCap <= U32_MAX + 1
      ensures Valid() && steps == [] && this.workflowId == workflowId && this.stepCap == stepCap
    {
      this.workflowId, this.stepCap, steps := workflowId, stepCap, [];
    }

    method Append(index: nat, kind: Kind, digest: string, outcome: Outcome) returns (r: Result<(), JournalError>)
      requires Valid() && index <= U32_MAX
      modifies this
      ensures Valid() && Continues(old(steps), steps)
      ensures steps == After(old(steps), stepCap, Op.Append(index, kind, digest, outcome))
      ensures r.Ok? <==> index == Bounded(|old(steps)|) && |old(steps)| < stepCap
      ensures r.Ok? ==> steps == old(steps) + [Step(index, kind, digest, outcome)]
      ensures r.Err? ==> Some(r.error) == Refusal(old(steps), stepCap, Op.Append(index, kind, digest, outcome))
    {
      var expected := Bounded(|steps|);
      if index != expected {
        return Err(OutOfOrder(expected, index));
      }
      if |steps| >= stepCap {
        return Err(StepCap(stepCap));
      }
      steps := steps + [Step(index, kind, digest, outcome)];
      r := Ok(());
    }

    method Settle(index: nat, digest: string, outcome: Outcome) returns (r: Result<(), JournalError>)
      requires Valid()
      modifies this
      ensures Valid() && Continues(old(steps), steps) && |steps| == |old(steps)|
      ensures steps == After(old(steps), stepCap, Op.Settle(index, digest, outcome))
      ensures r.Ok? <==>
              index < |old(steps)| && old(steps)[index].digest == digest && old(steps)[index].outcome == Unknown
      ensures r.Ok? ==> steps == old(steps)[index := old(steps)[index].(outcome := outcome)]
      ensures r.Err? ==> Some(r.error) == Refusal(old(steps), stepCap, Op.Settle(index, digest, outcome))
    {
      if index >= |steps| {
        return Err(OutOfOrder(Bounded(|steps|), index));
      }
      var step := steps[index];
      if step.digest != digest {
        return Err(Diverged(index, step.digest, digest));
      }
      if step.outcome != Unknown {
        return Err(AlreadySettled(index));
      }
      steps := steps[index := step.(outcome := outcome)];
      r := Ok(());
    }
  }

  function IdempotencyKey(workflowId: string, index: nat): string { workflowId + ":" + Decimal(index) }

  /** The key names one step of one workflow, whatever characters the workflow's id holds. */
  lemma {:induction false} KeyInjective(w: string, i: nat, v: string, j: nat)
    requires IdempotencyKey(w, i) == IdempotencyKey(v, j)
    ensures w == v && i == j
  {
    DecimalDigits(i);
    DecimalDigits(j);
    SplitLast(w, Decimal(i), v, Decimal(j), ':');
    DecimalInjective(i, j);
  }
}
