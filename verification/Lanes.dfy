/**
 One lane per repository: through every retry of every run, the lane that edits a repository's
 workspace is the one its route names (graph/builder.py, nodes/classify_failure.py).
 */
module Lanes {
  import opened Collections
  import opened Workflow
  import opened Trace
  import opened Invariant
  import opened Changes
  import opened Steps

  // No other lane than this one ran on the repository.
  predicate OnlyLane(log: seq<Entry>, r: string, strategy: Strategy) {
    forall t :: LaneRun(r, t) in log ==> t == strategy
  }

  // No repository was edited by two lanes.
  ghost predicate SameLane(log: seq<Entry>) {
    forall r, s, t :: LaneRun(r, s) in log && LaneRun(r, t) in log ==> s == t
  }

  // What ran on the repository at hand is what its route names.
  predicate FollowsRoute(s: State, log: seq<Entry>) {
    s.working.Some? && s.route.Some? ==> OnlyLane(log, s.working.value, s.route.value.strategy)
  }

  ghost predicate Laned(s: State, log: seq<Entry>) {
    SameLane(log) && FollowsRoute(s, log) && (s.working.None? ==> s.route.None?)
  }

  // A node before any lane may set the repository and the route.
  lemma PlanningKeeps(log: seq<Entry>, o: Outcome)
    requires SameLane(log) && o.Done? && o.entries == []
    requires o.state.working.Some? && !RanLane(log, o.state.working.value)
    ensures Laned(o.state, log + o.entries)
  {
    assert log + o.entries == log;
    forall t | LaneRun(o.state.working.value, t) in log
      ensures false
    {
      NoLane(log, o.state.working.value, LaneRun(o.state.working.value, t));
    }
  }

  // A lane node runs the lane of its route.
  predicate RunsRoute(s: State, o: Outcome) {
    o.Done? ==>
      && o.state.working.Some? && o.state.working == s.working && o.state.route == s.route && s.route.Some?
      && o.entries == [LaneRun(s.working.value, s.route.value.strategy)]
  }

  lemma LaneKeeps(s: State, log: seq<Entry>, o: Outcome)
    requires Laned(s, log) && o.Done? && RunsRoute(s, o)
    ensures Laned(o.state, log + o.entries)
  {
    var r, strategy := s.working.value, s.route.value.strategy;
    forall r', t | LaneRun(r', t) in log + o.entries
      ensures LaneRun(r', t) in log || (r' == r && t == strategy)
    {
    }
    assert OnlyLane(log, r, strategy);
  }

  /* ---------- Node by node ---------- */

  lemma PomLaneRuns(n: Node, strategy: Strategy, s: State, x: Input)
    requires s.working.Some?
    ensures RunsRoute(s, PomLane(n, strategy, s, x))
  {
  }

  lemma ScaffoldRuns(s: State, x: Input)
    ensures RunsRoute(s, ExecuteScaffold(s, x))
  {
  }

  lemma ChooseKeeps(s: State, log: seq<Entry>)
    requires SameLane(log) && s.working.Some? && !RanLane(log, s.working.value) && ChooseRoute(s).Done?
    ensures Laned(ChooseRoute(s).state, log + ChooseRoute(s).entries)
  {
    PlanningKeeps(log, ChooseRoute(s));
    hide RanLane, Laned, SameLane;
  }

  // What the invariant says about the repository at hand, node by node.
  lemma AtHand(env: Env, c: Config)
    requires Inv(env, c)
    ensures c.node.DetectMavenProfile? ==> c.s.route.None?
    ensures IsLane(c.node) ==> c.s.working.Some?
    ensures c.node.SelectRoute? ==> c.s.working.Some? && !RanLane(c.log, c.s.working.value)
  {
    hide Frame, LogView, OwnedBy, RanLane, Bounded, Dirty;
  }

  // Any other node, as far as it keeps the repository at hand and its route.
  lemma FramesKeep(n: Node, s: State, log: seq<Entry>, o: Outcome)
    requires Laned(s, log) && o.Done? && Frames(n, s, o) && !IsLane(n) && !n.SelectRoute?
    requires n.DetectMavenProfile? ==> s.route.None?
    ensures Laned(o.state, log + o.entries)
  {
    forall r, t | LaneRun(r, t) in log + o.entries
      ensures LaneRun(r, t) in log
    {
    }
  }

  lemma ExecKeeps(env: Env, c: Config, x: Input)
    requires Inv(env, c) && Laned(c.s, c.log) && Exec(env, c.node, c.s, x).Done?
    ensures Laned(Exec(env, c.node, c.s, x).state, c.log + Exec(env, c.node, c.s, x).entries)
  {
    AtHand(env, c);
    LanedMeans(c.s, c.log);
    ExecLane(env, c.node, c.s, x);
    hide *;
    var o := Exec(env, c.node, c.s, x);
    if c.node.SelectRoute? {
      ChooseKeeps(c.s, c.log);
    } else if IsLane(c.node) {
      LaneKeeps(c.s, c.log, o);
    } else {
      ExecFrames(env, c.node, c.s, x);
      FramesKeep(c.node, c.s, c.log, o);
    }
  }

  lemma LanedMeans(s: State, log: seq<Entry>)
    requires Laned(s, log)
    ensures SameLane(log)
  {
  }

  lemma ExecLane(env: Env, n: Node, s: State, x: Input)
    ensures IsLane(n) && s.working.Some? ==> RunsRoute(s, Exec(env, n, s, x))
    ensures n.SelectRoute? ==> Exec(env, n, s, x) == ChooseRoute(s)
  {
    if IsLane(n) && s.working.Some? {
      PomLaneRuns(RemediateSimple, SimpleUpdate, s, x);
      PomLaneRuns(RemediateTransitive, TransitiveOverride, s, x);
      ScaffoldRuns(s, x);
    }
    hide RunsRoute, PomLane, ExecuteScaffold, ChooseRoute;
  }

  /* ---------- Move by move ---------- */

  lemma FollowKeeps(env: Env, c: Config, from: Node, o: Outcome)
    requires Laned(c.s, c.log) && (o.Done? ==> Laned(o.state, c.log + o.entries))
    ensures var c' := Follow(env, c, from, o); Laned(c'.s, c'.log)
  {
    hide *;
    FollowTakes(env, c, from, o);
  }

  lemma TickLaned(env: Env, c: Config, x: Input)
    requires Inv(env, c) && Laned(c.s, c.log)
    ensures Laned(TickMove(env, c, x).s, TickMove(env, c, x).log)
  {
    hide Exec, Follow, Laned, Inv;
    if Exec(env, c.node, c.s, x).Done? {
      ExecKeeps(env, c, x);
    }
    FollowKeeps(env, c.(steps := c.steps + 1), c.node, Exec(env, c.node, c.s, x));
  }

  lemma ResumeLaned(env: Env, c: Config, d: Decision)
    requires Laned(c.s, c.log)
    ensures Laned(ResumeMove(env, c, d).s, ResumeMove(env, c, d).log)
  {
    hide Review, Follow;
    var s := c.s.(feedback := Some(d));
    assert Laned(s, c.log);
    GateFrames(GateOf(ResumeStage(c.s)), s, ResumeStage(c.s));
    if Review(ResumeStage(c.s), s).Done? {
      FramesKeep(GateOf(ResumeStage(c.s)), s, c.log, Review(ResumeStage(c.s), s));
    }
    hide Laned;
    FollowKeeps(env, c.(armed := false), GateOf(ResumeStage(c.s)), Review(ResumeStage(c.s), s));
  }

  lemma StepLaned(env: Env, c: Config, m: Move)
    requires Inv(env, c) && Laned(c.s, c.log)
    ensures Laned(Step(env, c, m).s, Step(env, c, m).log)
  {
    hide Inv, Laned, TickMove, ResumeMove;
    if m.Tick? {
      TickLaned(env, c, m.input);
    } else {
      ResumeLaned(env, c, m.decision);
    }
  }

  lemma {:induction false} RunLaned(env: Env, c: Config, moves: seq<Move>)
    requires Inv(env, c) && Laned(c.s, c.log)
    ensures Laned(RunFrom(env, c, moves).s, RunFrom(env, c, moves).log)
    decreases |moves|
  {
    hide Step, Inv, Laned;
    if moves != [] {
      StepKeeps(env, c, moves[0]);
      StepLaned(env, c, moves[0]);
      RunLaned(env, Step(env, c, moves[0]), moves[1..]);
    }
  }

  /** In every run, however often it is retried, no repository is edited by two lanes, and the lane
      that edited the repository at hand is the one its route names. */
  lemma OneLanePerRepository(env: Env, c: Config)
    requires Reachable(env, c)
    ensures SameLane(c.log)
    ensures c.s.working.Some? && c.s.route.Some? ==> OnlyLane(c.log, c.s.working.value, c.s.route.value.strategy)
  {
    StartHolds(env);
    var moves: seq<Move> :| c == RunFrom(env, Start, moves);
    assert Laned(Start.s, Start.log);
    hide RunFrom, Inv;
    RunLaned(env, Start, moves);
  }
}
