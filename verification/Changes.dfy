/**
 What the execution of one node can change and record: the targets and workspaces, the repository at
 hand, its verdicts and its route, policy decisions and lane runs (nodes/).
 */
module Changes {
  import opened Collections
  import opened Workflow

  predicate IsLane(n: Node) {
    n.RemediateSimple? || n.RemediateTransitive? || n.ExecuteComplexScaffold?
  }

  // The move executes a node on this repository.
  predicate WorksOn(c: Config, m: Move, r: string) {
    m.Tick? && Enabled(c, m) && c.s.working == Some(r)
  }

  predicate Dropped(s: State) {
    s.working.None? && s.route.None?
  }

  // Only intake sets targets and workspaces, only the policy node decides, only lane nodes run lanes; the
  // repository at hand, its verdicts, results and route stay until the repository is done.
  predicate Frames(n: Node, s: State, o: Outcome) {
    o.Done? ==>
      && (n.LoadRepositoryContext? || o.state.targets == s.targets)
      && (n.CheckRepositoryIdempotency? || o.state.repoMap == s.repoMap)
      && (Dropped(o.state) || n.SelectRoute? || o.state.route == s.route)
      && (Dropped(o.state) || n.DetectMavenProfile? || o.state.working == s.working
          || (s.working.None? && (IsLane(n) || n.PrepareComplexRemediation?)))
      && (n.VerifyAdvisory? || o.state.advisory == s.advisory)
      && (Dropped(o.state) || n.VerifyMavenTarget? || o.state.maven == s.maven)
      && (Dropped(o.state) || n.ValidateRemediation? || o.state.validations == s.validations)
      && (n.PreflightValidate? || o.state.preflight == s.preflight || o.state.preflight.None?)
      && (forall e :: e in o.entries ==> (e.PolicyDecided? ==> n.ApplyPolicy?) && (e.LaneRun? ==> IsLane(n)))
  }

  // The states agree on all of that, and nothing of it is put on the log.
  predicate Alike(s: State, o: Outcome) {
    o.Done? ==>
      && o.state.targets == s.targets && o.state.repoMap == s.repoMap && o.state.route == s.route
      && o.state.working == s.working && o.state.advisory == s.advisory && o.state.maven == s.maven
      && o.state.validations == s.validations && (o.state.preflight == s.preflight || o.state.preflight.None?)
      && forall e :: e in o.entries ==> !e.PolicyDecided? && !e.LaneRun?
  }

  lemma AlikeFrames(n: Node, s: State, o: Outcome)
    requires Alike(s, o)
    ensures Frames(n, s, o)
  {
  }

  lemma IntakeFrames(s: State, x: Input)
    ensures Frames(BootstrapState, s, Bootstrap(s)) && Frames(ProbeCredentials, s, Probe(s))
    ensures Frames(IngestAndParseJira, s, Ingest(s, x)) && Frames(LoadRepositoryContext, s, LoadContext(s, x))
    ensures Frames(CheckRepositoryIdempotency, s, CheckIdempotency(s, x))
  {
    hide WorkspacesOf, PendingOf, SkippedOf;
  }

  lemma ProfileFrames(s: State)
    ensures Frames(DetectMavenProfile, s, DetectProfile(s))
  {
  }

  lemma RouteFrames(s: State)
    ensures Frames(SelectRoute, s, ChooseRoute(s))
  {
  }

  lemma VerdictFrames(s: State, x: Input)
    ensures Frames(VerifyAdvisory, s, LoadAdvisory(s, x)) && Frames(VerifyMavenTarget, s, VerifyTarget(s, x))
  {
  }

  lemma PolicyFrames(env: Env, s: State)
    ensures Frames(ApplyPolicy, s, ApplyPolicyUpdate(env, s))
  {
    hide EvaluatePolicy;
  }

  lemma ReviewAlike(s: State, stage: Stage)
    ensures Alike(s, Review(stage, s))
  {
  }

  lemma GateFrames(n: Node, s: State, stage: Stage)
    ensures Frames(n, s, Review(stage, s))
  {
    hide *;
    ReviewAlike(s, stage);
    AlikeFrames(n, s, Review(stage, s));
  }

  lemma PrepareFrames(s: State)
    ensures Frames(PrepareDeliveryApproval, s, PrepareDelivery(s))
  {
  }

  lemma PomFrames(n: Node, strategy: Strategy, s: State, x: Input)
    requires IsLane(n)
    ensures Frames(n, s, PomLane(n, strategy, s, x))
  {
  }

  lemma PlanFrames(s: State)
    ensures Frames(PrepareComplexRemediation, s, PrepareComplex(s))
  {
  }

  lemma ScaffoldFrames(s: State, x: Input)
    ensures Frames(ExecuteComplexScaffold, s, ExecuteScaffold(s, x))
  {
  }

  lemma CheckFrames(s: State, x: Input)
    ensures Frames(PreflightValidate, s, Preflight(s, x)) && Frames(ValidateRemediation, s, Validate(s, x))
    ensures Frames(HandleValidationFailure, s, HandleFailure(s))
  {
  }

  lemma FailureFrames(env: Env, s: State)
    ensures Frames(ClassifyFailure, s, ClassifyUpdate(env, s)) && Frames(Escalate, s, EscalateUpdate(s))
  {
    hide CanRetry, RetryNode;
  }

  lemma DoneFrames(n: Node, s: State, repo: string, entries: seq<Entry>)
    requires forall e :: e in entries ==> !e.PolicyDecided? && !e.LaneRun?
    ensures Frames(n, s, Done(FinishRepository(s, n, repo), entries))
  {
    hide Without, FindTargetIndex;
  }

  // What Frames compares is not what delivery sets.
  lemma DeliverySets(n: Node, s: State, d: Delivery, o: Outcome)
    requires Frames(n, WithDelivery(s, d), o)
    ensures Frames(n, s, o)
  {
  }

  lemma DeliverRecords(s: State, repo: string, x: Input)
    ensures forall e :: e in Deliver(s, repo, x).entries ==> !e.LaneRun? && !e.PolicyDecided?
  {
  }

  lemma FailedAlike(s: State, x: Input)
    requires s.working.Some? && Deliver(s, s.working.value, x).failure.Some?
    ensures Alike(s, Publish(s, x))
  {
    DeliverRecords(s, s.working.value, x);
    hide Deliver, FinishRepository, DeliveryErrorCode;
  }

  lemma PublishIsDone(s: State, x: Input)
    requires s.working.Some? && Deliver(s, s.working.value, x).failure.None?
    ensures var repo := s.working.value; var d := Deliver(s, repo, x);
      Publish(s, x) == Done(FinishRepository(WithDelivery(s, d), PublishRemediation, repo), d.entries + [RepoCompleted(repo)])
  {
    hide Deliver, FinishRepository;
  }

  lemma WithoutWork(s: State, x: Input)
    requires s.working.None?
    ensures Frames(PublishRemediation, s, Publish(s, x)) && Frames(SkipPublishForDryRun, s, SkipPublish(s))
  {
  }

  lemma PublishFrames(s: State, x: Input)
    ensures Frames(PublishRemediation, s, Publish(s, x))
  {
    hide *;
    if s.working.None? {
      WithoutWork(s, x);
    } else {
      var repo := s.working.value;
      var d := Deliver(s, repo, x);
      DeliverRecords(s, repo, x);
      if d.failure.Some? {
        FailedAlike(s, x);
        AlikeFrames(PublishRemediation, s, Publish(s, x));
      } else {
        PublishIsDone(s, x);
        DoneFrames(PublishRemediation, WithDelivery(s, d), repo, d.entries + [RepoCompleted(repo)]);
        DeliverySets(PublishRemediation, s, d, Publish(s, x));
      }
    }
  }

  lemma SkipFrames(s: State)
    ensures Frames(SkipPublishForDryRun, s, SkipPublish(s))
  {
    if s.working.Some? {
      var repo := s.working.value;
      DoneFrames(SkipPublishForDryRun, s, repo, [DryRunSkipped(repo), RepoCompleted(repo)]);
    }
    hide FinishRepository, Frames;
  }

  predicate Plans(n: Node) {
    || n.DetectMavenProfile? || n.VerifyAdvisory? || n.VerifyMavenTarget? || n.SelectRoute? || n.ApplyPolicy?
    || n.ReviewRemediationApproval? || n.PrepareComplexRemediation?
  }

  predicate Checks(n: Node) {
    n.PreflightValidate? || n.ValidateRemediation? || n.HandleValidationFailure? || n.ClassifyFailure? || n.Escalate?
  }

  predicate Delivers(n: Node) {
    n.PrepareDeliveryApproval? || n.ReviewDeliveryApproval? || n.PublishRemediation? || n.SkipPublishForDryRun? || n.End?
  }

  lemma PlansFrame(env: Env, n: Node, s: State, x: Input)
    requires Plans(n)
    ensures Frames(n, s, Exec(env, n, s, x))
  {
    if n.ApplyPolicy? {
      PolicyFrames(env, s);
    } else if n.ReviewRemediationApproval? {
      GateFrames(n, s, RemediationStage);
    } else if n.PrepareComplexRemediation? {
      PlanFrames(s);
    } else {
      ProfileFrames(s);
      RouteFrames(s);
      VerdictFrames(s, x);
    }
    hide Frames, DetectProfile, LoadAdvisory, VerifyTarget, ChooseRoute, ApplyPolicyUpdate, Review, PrepareComplex;
  }

  lemma LanesFrame(env: Env, n: Node, s: State, x: Input)
    requires IsLane(n)
    ensures Frames(n, s, Exec(env, n, s, x))
  {
    if n.ExecuteComplexScaffold? {
      ScaffoldFrames(s, x);
    } else {
      PomFrames(n, if n.RemediateSimple? then SimpleUpdate else TransitiveOverride, s, x);
    }
    hide Frames, PomLane, ExecuteScaffold;
  }

  lemma ChecksFrame(env: Env, n: Node, s: State, x: Input)
    requires Checks(n)
    ensures Frames(n, s, Exec(env, n, s, x))
  {
    if n.ClassifyFailure? || n.Escalate? {
      FailureFrames(env, s);
    } else {
      CheckFrames(s, x);
    }
    hide Frames, Preflight, Validate, HandleFailure, ClassifyUpdate, EscalateUpdate;
  }

  lemma EndFrames(s: State)
    ensures Frames(End, s, Done(s, []))
  {
  }

  lemma DeliversFrame(env: Env, n: Node, s: State, x: Input)
    requires Delivers(n)
    ensures Frames(n, s, Exec(env, n, s, x))
  {
    hide Frames, PrepareDelivery, Review, Publish, SkipPublish;
    if n.PrepareDeliveryApproval? {
      PrepareFrames(s);
    } else if n.ReviewDeliveryApproval? {
      GateFrames(n, s, DeliveryStage);
    } else if n.PublishRemediation? {
      PublishFrames(s, x);
    } else if n.SkipPublishForDryRun? {
      SkipFrames(s);
    } else {
      EndFrames(s);
    }
  }

  lemma IntakeNodesFrame(env: Env, n: Node, s: State, x: Input)
    requires !Plans(n) && !IsLane(n) && !Checks(n) && !Delivers(n)
    ensures Frames(n, s, Exec(env, n, s, x))
  {
    IntakeFrames(s, x);
    hide Frames, Bootstrap, Probe, Ingest, LoadContext, CheckIdempotency;
  }

  lemma ExecFrames(env: Env, n: Node, s: State, x: Input)
    ensures Frames(n, s, Exec(env, n, s, x))
  {
    hide *;
    if Plans(n) {
      PlansFrame(env, n, s, x);
    } else if IsLane(n) {
      LanesFrame(env, n, s, x);
    } else if Checks(n) {
      ChecksFrame(env, n, s, x);
    } else if Delivers(n) {
      DeliversFrame(env, n, s, x);
    } else {
      IntakeNodesFrame(env, n, s, x);
    }
  }

  // A move either faults, or takes the node's update.
  lemma FollowTakes(env: Env, c: Config, from: Node, o: Outcome)
    ensures var c' := Follow(env, c, from, o);
      && c'.queue == c.queue
      && ((c'.fault.Some? && c'.s == c.s && c'.log == c.log && c'.node == c.node)
          || (o.Done? && c'.s == o.state && c'.log == c.log + o.entries && c'.node in Successors(from)))
  {
    hide Route, Successors;
  }
}
