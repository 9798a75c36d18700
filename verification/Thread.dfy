/**
 A persisted remediation thread (graph/builder.py): a checkpoint that `bootstrap` and `resume`
 advance one node at a time, by executing the nodes, until it pauses at a gate or ends.
 */
module Thread {
  import opened Collections
  import opened Workflow
  import opened Trace
  import opened Invariant
  import opened Steps
  import opened Nodes

  class GraphThread {
    const env: Env
    const adapter: DeliveryAdapter
    var checkpoint: Config

    // The adapter has done exactly the effects the run has on record.
    ghost predicate Valid()
      reads this, adapter
    {
      Inv(env, checkpoint) && adapter.journal == Effects(checkpoint.log)
    }

    constructor (env: Env)
      ensures Valid() && fresh(adapter) && this.env == env && checkpoint == Start
    {
      this.env := env;
      adapter := new DeliveryAdapter();
      checkpoint := Start;
      new;
      StartHolds(env);
    }

    // Execute the next node, and take the edge its router selects.
    method Execute(x: Input)
      requires Valid() && Runnable(checkpoint)
      modifies this`checkpoint, adapter
      ensures Valid() && checkpoint == Step(env, old(checkpoint), Tick(x))
      ensures checkpoint.fault.None?
      ensures BeforeIntake(old(checkpoint).node) ==> Rank(old(checkpoint)) > 0
      ensures BeforeIntake(checkpoint.node) ==> BeforeIntake(old(checkpoint).node) && Rank(checkpoint) < Rank(old(checkpoint))
      ensures !BeforeIntake(old(checkpoint).node) ==>
        !BeforeIntake(checkpoint.node) && Measure(env, checkpoint) < Measure(env, old(checkpoint))
    {
      hide Inv, Exec, Follow, TickMove, Step, RunFrom, Measure, Rank, BeforeIntake, Runnable, Paused, Effects;
      ghost var c := checkpoint;
      Executes(env, c, x);
      TickIs(env, c, x);
      var outcome := ExecuteNode(env, checkpoint.node, checkpoint.s, x, adapter);
      TickEffects(env, c, x);
      var intake := checkpoint.node.CheckRepositoryIdempotency?;
      checkpoint := Follow(env, checkpoint.(steps := checkpoint.steps + 1), checkpoint.node, outcome);
      if intake {
        checkpoint := checkpoint.(queue := checkpoint.s.pending);
      }
    }

    /** Invoke the graph: nodes execute, whatever the adapters answer, until the thread pauses at an
        approval gate or the run ends; it does one of the two. `answers(i)` is what the outside world
        says during the i-th execution. */
    method Invoke(answers: nat -> Input) returns (ghost moves: seq<Move>, executed: nat)
      requires Valid()
      modifies this`checkpoint, adapter
      ensures Valid() && checkpoint == RunFrom(env, old(checkpoint), moves)
      ensures |moves| == executed && forall i :: 0 <= i < executed ==> moves[i] == Tick(answers(i))
      ensures Paused(checkpoint) || checkpoint.node.End?
      ensures !Runnable(checkpoint)
    {
      hide Inv, Exec, Follow, TickMove, Step, RunFrom, Measure, Rank, BeforeIntake, Runnable, Paused, Effects;
      moves, executed := [], 0;
      ghost var c := checkpoint;
      NoMoves(env, c);
      while Runnable(checkpoint)
        invariant Valid() && checkpoint == RunFrom(env, c, moves)
        invariant |moves| == executed && forall i :: 0 <= i < executed ==> moves[i] == Tick(answers(i))
        decreases if BeforeIntake(checkpoint.node) then Rank(checkpoint) else 0, Measure(env, checkpoint)
      {
        ghost var before := checkpoint;
        RunExtends(env, c, moves, Tick(answers(executed)));
        Execute(answers(executed));
        moves, executed := moves + [Tick(answers(executed))], executed + 1;
      }
      Stopped(env, checkpoint);
    }

    /** Resume a paused thread with an approver's decision, and invoke the graph again. */
    method ResumeWith(decision: Decision, answers: nat -> Input) returns (ghost moves: seq<Move>, executed: nat)
      requires Valid() && Paused(checkpoint)
      modifies this`checkpoint, adapter
      ensures Valid() && checkpoint == RunFrom(env, old(checkpoint), [Resume(decision)] + moves)
      ensures |moves| == executed && forall i :: 0 <= i < executed ==> moves[i] == Tick(answers(i))
      ensures Paused(checkpoint) || checkpoint.node.End?
    {
      ghost var c := checkpoint;
      ResumeKeeps(env, checkpoint, decision);
      ResumeEffects(env, c, decision);
      var stage := ResumeStage(checkpoint.s);
      var s, entries := ReviewApprovalNode(stage, checkpoint.s.(feedback := Some(decision)));
      checkpoint := Follow(env, checkpoint.(armed := false), GateOf(stage), Done(s, entries));
      assert checkpoint == Step(env, c, Resume(decision));
      moves, executed := Invoke(answers);
      assert ([Resume(decision)] + moves)[1..] == moves;
    }

    /** The adapter never does the same thing twice for a repository, however often it was retried or
        the thread resumed. */
    lemma AdapterRepeatsNothing(i: nat, j: nat)
      requires Valid() && i < j < |adapter.journal|
      ensures !SameEffect(adapter.journal[i], adapter.journal[j])
    {
      hide Frame, AtNode;
      InvJustified(env, checkpoint);
      EffectsOnce(env, checkpoint.log, i, j);
    }
  }

  lemma InvJustified(env: Env, c: Config)
    requires Inv(env, c)
    ensures Justified(env, c.log)
  {
    hide AtNode, Allowed, QueueConserved, LogScope;
  }

  lemma TickIs(env: Env, c: Config, x: Input)
    requires Runnable(c)
    ensures var next := Follow(env, c.(steps := c.steps + 1), c.node, Exec(env, c.node, c.s, x));
      && TickMove(env, c, x) == (if c.node.CheckRepositoryIdempotency? then next.(queue := next.s.pending) else next)
      && Step(env, c, Tick(x)) == TickMove(env, c, x)
  {
    hide Follow, Exec;
  }

  // What a node execution records is on the log.
  lemma TickEffects(env: Env, c: Config, x: Input)
    requires c.fault.None? && TickMove(env, c, x).fault.None?
    ensures var o := Exec(env, c.node, c.s, x);
      o.Done? && Effects(TickMove(env, c, x).log) == Effects(c.log) + Effects(o.entries)
  {
    var o := Exec(env, c.node, c.s, x);
    hide Exec, Route, Successors, Effects;
    if o.Done? {
      EffectsConcat(c.log, o.entries);
    }
  }

  lemma ResumeEffects(env: Env, c: Config, d: Decision)
    requires Paused(c) && ResumeMove(env, c, d).fault.None?
    ensures Effects(ResumeMove(env, c, d).log) == Effects(c.log)
    ensures ResumeMove(env, c, d).log == c.log + Review(ResumeStage(c.s), c.s.(feedback := Some(d))).entries
  {
    var o := Review(ResumeStage(c.s), c.s.(feedback := Some(d)));
    ReviewEntries(ResumeStage(c.s), c.s.(feedback := Some(d)));
    hide Review, Route, Successors, Effects;
    EffectsConcat(c.log, o.entries);
    assert Effects(c.log) + [] == Effects(c.log);
  }

  lemma ReviewEntries(stage: Stage, s: State)
    ensures Review(stage, s).Done? && Effects(Review(stage, s).entries) == []
  {
    if s.working.Some? {
      NoEffects(Granted(s.working.value, stage));
    }
    hide Noted;
  }

  lemma NoMoves(env: Env, c: Config)
    ensures RunFrom(env, c, []) == c
  {
  }

  lemma Stopped(env: Env, c: Config)
    requires Inv(env, c) && !Runnable(c)
    ensures Paused(c) || c.node.End?
  {
    hide Frame, AtNode, Blank, Bounded;
  }

  lemma Executes(env: Env, c: Config, x: Input)
    requires Inv(env, c) && Runnable(c)
    ensures var c' := TickMove(env, c, x);
      && Inv(env, c') && c'.fault.None? && c.fault.None?
      && (BeforeIntake(c.node) ==> Rank(c) > 0)
      && (BeforeIntake(c'.node) ==> BeforeIntake(c.node) && Rank(c') < Rank(c))
      && (!BeforeIntake(c.node) ==> !BeforeIntake(c'.node) && Measure(env, c') < Measure(env, c))
  {
    TickKeeps(env, c, x);
    if BeforeIntake(c.node) {
      IntakeDescends(env, c, x);
    } else {
      hide TickMove, Frame, AtNode, Measure;
      TickAfterIntake(env, c, x);
    }
  }

  lemma IntakeDescends(env: Env, c: Config, x: Input)
    requires BeforeIntake(c.node) && TickMove(env, c, x).fault.None?
    ensures BeforeIntake(TickMove(env, c, x).node) ==> Rank(TickMove(env, c, x)) < Rank(c)
  {
    hide Bootstrap, Probe, Ingest, LoadContext, CheckIdempotency;
  }
}
