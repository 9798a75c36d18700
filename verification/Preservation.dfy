/**
 What each node keeps of the invariant.

 A `...Node` lemma is about one node's own update: from what holds where the node is about to execute
 it shows what holds of the new state and of the longer log, for every edge the router may take from
 there. The routers, the declared edges and the step budget are left to `Steps`.

 The sections follow the order of a run: verification and routing, policy, the approval gates, the
 lanes with their validation and rollback, the retry decision, and delivery.
 */
module Preservation {
  import opened Collections
  import opened Verdicts
  import opened Workflow
  import opened Trace
  import opened Invariant

  // The queue and the retry budget are as before.
  predicate SameBudget(s: State, s': State) {
    s'.pending == s.pending && s'.retryCount == s.retryCount
  }

  predicate Pausing(s: State) {
    s.status.Pending? && s.pendingStage.Some?
  }

  // The queue has lost its head: the run goes to the next repository, or is over.
  predicate HeadFinished(s: State, s': State) {
    && s.pending != []
    && s'.pending == Without(s.pending, s.pending[0])
    && (if s'.pending == [] then s'.status.Completed? else s'.retryCount == 0)
    && SelectPostDelivery(s') == Goto(if s'.pending != [] then DetectMavenProfile else End)
  }

  /* ---------- Growing the log ---------- */

  lemma Appended(log: seq<Entry>, e: Entry, r: string)
    ensures PolicyOf(log + [e], r) == (if e.PolicyDecided? && e.repo == r then Some(e.decision) else PolicyOf(log, r))
    ensures VerdictOf(log + [e], r) == (if e.Validated? && e.repo == r then Some(e.failed) else VerdictOf(log, r))
    ensures forall f :: f in log + [e] <==> f in log || f == e
  {
    assert (log + [e])[..|log + [e]| - 1] == log;
    assert Last(log + [e]) == e;
  }

  lemma OpenedAppended(log: seq<Entry>, e: Entry)
    ensures OpenedPullRequest(log + [e], e.repo) <==> OpenedPullRequest(log, e.repo) || e.PullRequestOpened?
  {
    Appended(log, e, e.repo);
    if e.PullRequestOpened? {
      assert e in log + [e];
      match e.draft
      case AdapterDefault =>
      case AsDraft =>
      case ReadyForReview =>
    }
  }

  // Recording an entry keeps log and state in agreement when the state follows suit.
  lemma ViewAppended(log: seq<Entry>, s: State, e: Entry, s': State)
    requires LogView(log, s, e.repo)
    requires s'.policyDecisions == s.policyDecisions + if e.PolicyDecided? then [e.decision] else []
    requires if e.Validated? then s'.validations != [] && LatestFailed(s') == e.failed else s'.validations == s.validations
    requires HasApproved(s', RemediationStage) <==> HasApproved(s, RemediationStage) || e == Granted(e.repo, RemediationStage)
    requires HasApproved(s', DeliveryStage) <==> HasApproved(s, DeliveryStage) || e == Granted(e.repo, DeliveryStage)
    requires s'.branch.Some? <==> s.branch.Some? || e.BranchPublished?
    requires s'.pullRequest.Some? <==> s.pullRequest.Some? || e.PullRequestOpened?
    requires s'.jira.Some? <==> s.jira.Some? || e.JiraCompleted?
    ensures LogView(log + [e], s', e.repo)
  {
    Appended(log, e, e.repo);
    OpenedAppended(log, e);
  }

  // A step that keeps the queue and records nothing keeps the frame.
  lemma SilentFrame(env: Env, s: State, log: seq<Entry>, queue: seq<string>, s': State)
    requires Frame(env, s, log, queue)
    requires s'.pending == s.pending && s'.completed == s.completed && s'.repoMap == s.repoMap
    requires s.working.None? || s'.working == s.working
    ensures log + [] == log
    ensures Frame(env, s', log, queue)
  {
  }

  // A step that keeps the queue and records a justified entry about the working repository keeps the frame.
  lemma RecordedFrame(env: Env, s: State, log: seq<Entry>, queue: seq<string>, s': State, e: Entry)
    requires Frame(env, s, log, queue) && s.working == Some(e.repo) && !e.RepoCompleted?
    requires Allowed(env, log, e)
    requires s'.pending == s.pending && s'.completed == s.completed && s'.repoMap == s.repoMap && s'.working == s.working
    ensures Frame(env, s', log + [e], queue)
  {
    JustifiedAppend(env, log, e);
  }

  // The queue head is not among the completed repositories.
  lemma HeadNotCompleted(s: State, queue: seq<string>)
    requires QueueConserved(s, queue) && s.pending != []
    ensures s.pending[0] !in s.completed
  {
    DistinctHasNoDuplicates(queue);
    var all := s.completed + Distinct(s.pending);
    assert all[|s.completed|] == s.pending[0];
    forall i | 0 <= i < |s.completed|
      ensures s.completed[i] != s.pending[0]
    {
      assert all[i] == s.completed[i];
    }
  }

  /* ---------- Verification and routing ---------- */

  lemma DetectNode(env: Env, s: State, log: seq<Entry>, queue: seq<string>)
    requires Frame(env, s, log, queue) && AtDetect(env, s, log)
    ensures var o := DetectProfile(s);
      o.Done? && o.entries == [] && SameBudget(s, o.state) && Frame(env, o.state, log, queue) && AtVerifyAdvisory(env, o.state, log)
  {
    SilentFrame(env, s, log, queue, DetectProfile(s).state);
    HeadNotCompleted(s, queue);
    Unmentioned(log, s.pending[0]);
  }

  lemma AdvisoryNode(env: Env, s: State, log: seq<Entry>, queue: seq<string>, x: Input)
    requires Frame(env, s, log, queue) && AtVerifyAdvisory(env, s, log)
    ensures var o := LoadAdvisory(s, x);
      o.Done? && o.entries == [] && SameBudget(s, o.state) && Frame(env, o.state, log, queue) && AtVerifyMaven(env, o.state, log)
  {
    SilentFrame(env, s, log, queue, LoadAdvisory(s, x).state);
  }

  lemma MavenNode(env: Env, s: State, log: seq<Entry>, queue: seq<string>, x: Input)
    requires Frame(env, s, log, queue) && AtVerifyMaven(env, s, log)
    ensures var o := VerifyTarget(s, x);
      o.Done? && o.entries == [] && SameBudget(s, o.state) && Frame(env, o.state, log, queue) && AtSelectRoute(env, o.state, log)
  {
    SilentFrame(env, s, log, queue, VerifyTarget(s, x).state);
  }

  lemma RouteNode(env: Env, s: State, log: seq<Entry>, queue: seq<string>)
    requires Frame(env, s, log, queue) && AtSelectRoute(env, s, log)
    ensures var o := ChooseRoute(s);
      o.Done? && o.entries == [] && SameBudget(s, o.state) && Frame(env, o.state, log, queue) && AtApplyPolicy(env, o.state, log)
  {
    SilentFrame(env, s, log, queue, ChooseRoute(s).state);
  }

  /* ---------- Policy ---------- */

  // The state after policy, field by field.
  lemma PolicyState(s: State, d: PolicyDecision)
    requires s.pendingStage.None? && s.policyDecisions == [] && s.errors == []
    ensures PolicyUpdate(s, d) == s.(
      audit := PolicyUpdate(s, d).audit,
      policyDecisions := [d], requiresApproval := d.requiresApproval, requiresDelivery := d.requiresDelivery,
      pendingStage := if d.requiresApproval then Some(RemediationStage) else None,
      errors := if d.allowed then [] else [WorkflowError(PolicyBlocked, false, s.working)],
      status := if !d.allowed then Failed else if d.requiresApproval then Pending else s.status)
  {
  }

  lemma PolicyActive(env: Env, s: State, log: seq<Entry>, queue: seq<string>, d: PolicyDecision)
    requires Frame(env, s, log, queue) && AtApplyPolicy(env, s, log)
    ensures var e := PolicyDecided(s.pending[0], d); var s' := PolicyUpdate(s, d);
      && Frame(env, s', log + [e], queue) && Active(env, s', log + [e])
      && !RanLane(log + [e], s.pending[0]) && PublishRun(s.pending[0]) !in log + [e]
  {
    var e := PolicyDecided(s.pending[0], d);
    var s' := PolicyUpdate(s, d);
    PolicyState(s, d);
    HeadNotCompleted(s, queue);
    RecordedFrame(env, s, log, queue, s', e);
    ViewAppended(log, s, e, s');
  }

  lemma PolicyBlocks(env: Env, s: State, log: seq<Entry>, d: PolicyDecision)
    requires AtApplyPolicy(env, s, log) && !d.allowed
    ensures AtEnd(env, PolicyUpdate(s, d), log + [PolicyDecided(s.pending[0], d)])
  {
    PolicyState(s, d);
    assert EndsAs(env, PolicyUpdate(s, d), log + [PolicyDecided(s.pending[0], d)], EndedBlocked);
  }

  lemma PolicyAsks(env: Env, s: State, log: seq<Entry>, queue: seq<string>, d: PolicyDecision)
    requires Frame(env, s, log, queue) && AtApplyPolicy(env, s, log)
    requires d.allowed && d.requiresApproval && (d.requiresDelivery ==> s.route.value.strategy.ComplexRefactor?)
    ensures AtReviewRemediation(env, PolicyUpdate(s, d), log + [PolicyDecided(s.pending[0], d)])
  {
    PolicyState(s, d);
    PolicyActive(env, s, log, queue, d);
  }

  lemma PolicyPasses(env: Env, s: State, log: seq<Entry>, queue: seq<string>, d: PolicyDecision)
    requires Frame(env, s, log, queue) && AtApplyPolicy(env, s, log)
    requires d.allowed && !d.requiresApproval && (d.requiresDelivery ==> s.route.value.strategy.ComplexRefactor?)
    requires !s.route.value.requiresApproval
    ensures AtLane(env, PolicyUpdate(s, d), log + [PolicyDecided(s.pending[0], d)], s.route.value.strategy)
  {
    hide Frame, LogView, OwnedBy, PolicyUpdate;
    PolicyState(s, d);
    PolicyActive(env, s, log, queue, d);
    NotRunNotDirty(log + [PolicyDecided(s.pending[0], d)], s.pending[0]);
    hide Dirty, Active;
  }

  lemma PolicyFacts(config: PolicyConfig, s: State)
    requires s.route.Some? && s.requiresApproval == s.route.value.requiresApproval
    ensures var d := EvaluatePolicy(config, s);
      && (d.requiresDelivery ==> s.route.value.strategy.ComplexRefactor?)
      && (s.route.value.requiresApproval ==> d.requiresApproval)
      && (!d.allowed ==> d.requiresApproval)
  {
  }

  lemma PolicyRouting(s: State, d: PolicyDecision)
    requires s.pendingStage.None? && s.policyDecisions == [] && s.errors == [] && s.route.Some?
    requires s.route.value.strategy.UnknownRoute? ==> d.requiresApproval
    ensures var s' := PolicyUpdate(s, d);
      && SameBudget(s, s') && s'.route == s.route
      && (!d.allowed ==> SelectPostPolicy(s') == Goto(End) && !Pausing(s'))
      && (d.allowed && d.requiresApproval ==> SelectPostPolicy(s') == Goto(ReviewRemediationApproval))
      && (d.allowed && !d.requiresApproval ==> SelectPostPolicy(s') == Goto(LaneNode(s.route.value.strategy)))
  {
    PolicyState(s, d);
  }

  // Where the routers send a strategy.
  function LaneNode(strategy: Strategy): Node {
    match strategy
    case SimpleUpdate => RemediateSimple
    case TransitiveOverride => RemediateTransitive
    case ComplexRefactor => PrepareComplexRemediation
    case UnknownRoute => End
  }

  /* ---------- Approval gates ---------- */

  lemma ReviewUndecided(env: Env, s: State, log: seq<Entry>, queue: seq<string>, stage: Stage, f: Option<Decision>)
    requires Frame(env, s, log, queue) && (f.None? || f.value.Undecided?)
    requires if stage.RemediationStage? then AwaitingRemediation(env, s, log) else AwaitingDelivery(env, s, log)
    ensures var o := Review(stage, s.(feedback := f));
      o.Done? && o.entries == [] && SameBudget(s, o.state) && DecisionOf(o.state).Undecided?
      && o.state.pendingStage == Some(stage)
      && Frame(env, o.state, log, queue) && AtEnd(env, o.state, log)
  {
    var s' := Review(stage, s.(feedback := f)).state;
    SilentFrame(env, s, log, queue, s');
    if stage.RemediationStage? {
      StillAwaitingRemediation(env, s, log, f);
    } else {
      StillAwaitingDelivery(env, s, log, f);
    }
    hide AwaitingRemediation, AwaitingDelivery, Frame;
  }

  lemma StillAwaitingRemediation(env: Env, s: State, log: seq<Entry>, f: Option<Decision>)
    requires AwaitingRemediation(env, s, log) && (f.None? || f.value.Undecided?)
    ensures var s' := Review(RemediationStage, s.(feedback := f)).state;
      AwaitingRemediation(env, s', log) && EndsAs(env, s', log, EndedAwaiting)
  {
  }

  lemma StillAwaitingDelivery(env: Env, s: State, log: seq<Entry>, f: Option<Decision>)
    requires AwaitingDelivery(env, s, log) && (f.None? || f.value.Undecided?)
    ensures var s' := Review(DeliveryStage, s.(feedback := f)).state;
      AwaitingDelivery(env, s', log) && EndsAs(env, s', log, EndedAwaiting)
  {
  }

  lemma ReviewRejected(env: Env, s: State, log: seq<Entry>, queue: seq<string>, stage: Stage)
    requires Frame(env, s, log, queue)
    requires if stage.RemediationStage? then AwaitingRemediation(env, s, log) else AwaitingDelivery(env, s, log)
    ensures var o := Review(stage, s.(feedback := Some(Rejected)));
      o.Done? && o.entries == [] && SameBudget(s, o.state) && DecisionOf(o.state).Rejected?
      && (stage.RemediationStage? ==> o.state.validations == []) && (stage.DeliveryStage? ==> LatestPassed(o.state))
      && Frame(env, o.state, log, queue) && AtClassify(env, o.state, log)
  {
    var s' := Review(stage, s.(feedback := Some(Rejected))).state;
    SilentFrame(env, s, log, queue, s');
  }

  lemma ReviewApproves(env: Env, s: State, log: seq<Entry>, queue: seq<string>, stage: Stage)
    requires Frame(env, s, log, queue)
    requires if stage.RemediationStage? then AwaitingRemediation(env, s, log) else AwaitingDelivery(env, s, log)
    ensures var o := Review(stage, s.(feedback := Some(Approved)));
      o.Done? && o.entries == [Granted(s.pending[0], stage)] && SameBudget(s, o.state) && DecisionOf(o.state).Approved?
      && Frame(env, o.state, log + o.entries, queue) && Active(env, o.state, log + o.entries)
  {
    var e := Granted(s.pending[0], stage);
    var s' := Review(stage, s.(feedback := Some(Approved))).state;
    HeadNotCompleted(s, queue);
    RecordedFrame(env, s, log, queue, s', e);
    ViewAppended(log, s, e, s');
  }

  lemma RemediationApproved(env: Env, s: State, log: seq<Entry>, queue: seq<string>)
    requires Frame(env, s, log, queue) && AwaitingRemediation(env, s, log)
    ensures var s' := Review(RemediationStage, s.(feedback := Some(Approved))).state;
      var log' := log + [Granted(s.pending[0], RemediationStage)];
      && s'.route == s.route
      && if s.route.value.strategy.UnknownRoute? then AtEnd(env, s', log') else AtLane(env, s', log', s.route.value.strategy)
  {
    var s' := Review(RemediationStage, s.(feedback := Some(Approved))).state;
    var log' := log + [Granted(s.pending[0], RemediationStage)];
    AwaitingFacts(env, s, log);
    hide *;
    ReviewApproves(env, s, log, queue, RemediationStage);
    ApprovedState(s);
    ApprovedLeads(env, s', log');
  }

  lemma AwaitingFacts(env: Env, s: State, log: seq<Entry>)
    requires AwaitingRemediation(env, s, log)
    ensures Decided(s) && Unattempted(s) && s.pending != [] && s.working == Some(s.pending[0])
    ensures s.requiresApproval && s.pendingStage == Some(RemediationStage) && s.route.Some?
    ensures PublishRun(s.pending[0]) !in log + [Granted(s.pending[0], RemediationStage)]
    ensures !Dirty(log + [Granted(s.pending[0], RemediationStage)], s.pending[0])
  {
    NotRunNotDirty(log, s.pending[0]);
    DirtyAppended(log, Granted(s.pending[0], RemediationStage), s.pending[0]);
    hide Dirty;
  }

  lemma ApprovedLeads(env: Env, s: State, log: seq<Entry>)
    requires Active(env, s, log) && Decided(s) && s.pendingStage.None? && s.status.InProgress? && s.requiresApproval
    requires HasApproved(s, RemediationStage) && !HasApproved(s, DeliveryStage)
    requires Unattempted(s.(approvals := [])) && s.errors == [] && PublishRun(s.pending[0]) !in log
    requires !Dirty(log, s.pending[0])
    ensures if s.route.value.strategy.UnknownRoute? then AtEnd(env, s, log) else AtLane(env, s, log, s.route.value.strategy)
  {
    if s.route.value.strategy.UnknownRoute? {
      assert EndsAs(env, s, log, EndedUnknownRoute);
    }
    hide LogView, OwnedBy;
  }

  // What an approval of the remediation changes in the state.
  lemma ApprovedState(s: State)
    requires Decided(s) && Unattempted(s) && s.pending != [] && s.working == Some(s.pending[0])
    requires s.requiresApproval && s.pendingStage == Some(RemediationStage)
    ensures var s' := Review(RemediationStage, s.(feedback := Some(Approved))).state;
      && Decided(s') && s'.route == s.route && s'.pending == s.pending && s'.pendingStage.None? && s'.status.InProgress?
      && s'.requiresApproval && HasApproved(s', RemediationStage) && !HasApproved(s', DeliveryStage)
      && Unattempted(s'.(approvals := [])) && s'.errors == []
  {
  }

  lemma DeliveryApproved(env: Env, s: State, log: seq<Entry>, queue: seq<string>)
    requires Frame(env, s, log, queue) && AwaitingDelivery(env, s, log)
    ensures var s' := Review(DeliveryStage, s.(feedback := Some(Approved))).state;
      DeliveryReady(env, s', log + [Granted(s.pending[0], DeliveryStage)])
  {
    ReviewApproves(env, s, log, queue, DeliveryStage);
  }

  lemma PrepareDeliveryNode(env: Env, s: State, log: seq<Entry>, queue: seq<string>)
    requires Frame(env, s, log, queue) && AtPrepareDelivery(env, s, log)
    ensures var o := PrepareDelivery(s);
      o.Done? && o.entries == [] && SameBudget(s, o.state) && Frame(env, o.state, log, queue) && AtReviewDelivery(env, o.state, log)
  {
    SilentFrame(env, s, log, queue, PrepareDelivery(s).state);
  }

  /* ---------- Lanes and validation ---------- */

  lemma LaneRecorded(env: Env, s: State, log: seq<Entry>, queue: seq<string>, strategy: Strategy, s': State)
    requires Frame(env, s, log, queue) && AtLane(env, s, log, strategy) && !strategy.UnknownRoute?
    requires s' == s.(modified := s'.modified, complexPlan := s'.complexPlan, audit := s'.audit)
    requires s'.complexPlan.Some? ==> s'.complexPlan == s.working
    ensures var log' := log + [LaneRun(s.pending[0], strategy)];
      && Frame(env, s', log', queue) && Planned(env, s', log') && RanLane(log', s.pending[0])
  {
    var e := LaneRun(s.pending[0], strategy);
    HeadNotCompleted(s, queue);
    RecordedFrame(env, s, log, queue, s', e);
    ViewAppended(log, s, e, s');
  }

  lemma PomLaneNode(env: Env, n: Node, s: State, log: seq<Entry>, queue: seq<string>, strategy: Strategy, x: Input)
    requires Frame(env, s, log, queue) && AtLane(env, s, log, strategy)
    requires strategy.SimpleUpdate? || strategy.TransitiveOverride?
    ensures var o := PomLane(n, strategy, s, x);
      && o.Done? && o.entries == [LaneRun(s.pending[0], strategy)] && SameBudget(s, o.state)
      && Frame(env, o.state, log + o.entries, queue) && AtPreflight(env, o.state, log + o.entries)
  {
    LaneRecorded(env, s, log, queue, strategy, PomLane(n, strategy, s, x).state);
  }

  lemma PrepareComplexNode(env: Env, s: State, log: seq<Entry>, queue: seq<string>)
    requires Frame(env, s, log, queue) && AtLane(env, s, log, ComplexRefactor)
    ensures var o := PrepareComplex(s);
      && o.Done? && o.entries == [LanePlanned(s.pending[0])] && SameBudget(s, o.state)
      && Frame(env, o.state, log + o.entries, queue) && AtExecuteScaffold(env, o.state, log + o.entries)
  {
    PlanRecorded(env, s, log, queue, PrepareComplex(s).state);
    hide Frame, AtLane;
  }

  lemma PlanRecorded(env: Env, s: State, log: seq<Entry>, queue: seq<string>, s': State)
    requires Frame(env, s, log, queue) && AtLane(env, s, log, ComplexRefactor)
    requires s' == s.(complexPlan := s'.complexPlan, audit := s'.audit) && s'.complexPlan == s.working
    ensures var log' := log + [LanePlanned(s.pending[0])];
      Frame(env, s', log', queue) && AtLane(env, s', log', ComplexRefactor)
  {
    var e := LanePlanned(s.pending[0]);
    NotYetLogged(env, s, log, queue);
    PlanAllowed(env, s, log);
    RecordedFrame(env, s, log, queue, s', e);
    hide Frame;
    PlanKeepsLane(env, s, log, s');
    hide *;
  }

  lemma PlanAllowed(env: Env, s: State, log: seq<Entry>)
    requires AtLane(env, s, log, ComplexRefactor) && RepoCompleted(s.pending[0]) !in log
    ensures s.working == Some(s.pending[0]) && Allowed(env, log, LanePlanned(s.pending[0]))
  {
    hide Dirty, OwnedBy;
  }

  lemma PlanKeepsLane(env: Env, s: State, log: seq<Entry>, s': State)
    requires AtLane(env, s, log, ComplexRefactor)
    requires s' == s.(complexPlan := s'.complexPlan, audit := s'.audit) && s'.complexPlan == s.working
    ensures AtLane(env, s', log + [LanePlanned(s.pending[0])], ComplexRefactor)
  {
    ViewAppended(log, s, LanePlanned(s.pending[0]), s');
    DirtyAppended(log, LanePlanned(s.pending[0]), s.pending[0]);
    hide Dirty, LogView;
  }

  lemma ScaffoldNode(env: Env, s: State, log: seq<Entry>, queue: seq<string>, x: Input)
    requires Frame(env, s, log, queue) && AtExecuteScaffold(env, s, log)
    ensures var o := ExecuteScaffold(s, x);
      && o.Done? && o.entries == [LaneRun(s.pending[0], ComplexRefactor)] && SameBudget(s, o.state)
      && Frame(env, o.state, log + o.entries, queue) && AtValidate(env, o.state, log + o.entries)
  {
    LaneRecorded(env, s, log, queue, ComplexRefactor, ExecuteScaffold(s, x).state);
  }

  lemma PreflightNode(env: Env, s: State, log: seq<Entry>, queue: seq<string>, x: Input)
    requires Frame(env, s, log, queue) && AtPreflight(env, s, log)
    ensures var o := Preflight(s, x);
      o.Done? && o.entries == [] && SameBudget(s, o.state) && Frame(env, o.state, log, queue) && AtValidate(env, o.state, log)
  {
    SilentFrame(env, s, log, queue, Preflight(s, x).state);
  }

  lemma ValidateNode(env: Env, s: State, log: seq<Entry>, queue: seq<string>, x: Input)
    requires Frame(env, s, log, queue) && AtValidate(env, s, log)
    ensures var o := Validate(s, x);
      && o.Done? && o.entries == [Validated(s.pending[0], x.validationStatus == CheckFailed)] && SameBudget(s, o.state)
      && o.state.validations != [] && LatestFailed(o.state) == (x.validationStatus == CheckFailed)
      && Frame(env, o.state, log + o.entries, queue) && Planned(env, o.state, log + o.entries)
      && ScaffoldPrepared(o.state)
  {
    var s' := Validate(s, x).state;
    var e := Validated(s.pending[0], x.validationStatus == CheckFailed);
    HeadNotCompleted(s, queue);
    RecordedFrame(env, s, log, queue, s', e);
    VerdictRecorded(env, s, log, x);
    hide Frame, Planned, Active;
  }

  lemma VerdictRecorded(env: Env, s: State, log: seq<Entry>, x: Input)
    requires AtValidate(env, s, log)
    ensures var s' := Validate(s, x).state;
      Planned(env, s', log + [Validated(s.pending[0], x.validationStatus == CheckFailed)]) && ScaffoldPrepared(s')
  {
    ViewAppended(log, s, Validated(s.pending[0], x.validationStatus == CheckFailed), Validate(s, x).state);
  }

  // Where validation leads.
  lemma ValidationLeads(env: Env, s: State, log: seq<Entry>)
    requires Planned(env, s, log) && ScaffoldPrepared(s) && s.validations != []
    ensures
      if LatestFailed(s) then AtHandleFailure(env, s, log)
      else if env.dryRun then AtSkip(env, s, log)
      else if s.requiresDelivery then AtPrepareDelivery(env, s, log) && !HasApproved(s, DeliveryStage)
      else DeliveryReady(env, s, log)
  {
  }

  lemma HandleFailureNode(env: Env, s: State, log: seq<Entry>, queue: seq<string>)
    requires Frame(env, s, log, queue) && AtHandleFailure(env, s, log)
    ensures var o := HandleFailure(s);
      && o.Done? && o.entries == [RolledBack(s.pending[0])] && SameBudget(s, o.state) && o.state.validations == s.validations
      && Frame(env, o.state, log + o.entries, queue) && AtClassify(env, o.state, log + o.entries)
  {
    var s' := HandleFailure(s).state;
    var e := RolledBack(s.pending[0]);
    HeadNotCompleted(s, queue);
    RecordedFrame(env, s, log, queue, s', e);
    FailureHandled(env, s, log);
    hide Frame, AtClassify, Active;
  }

  lemma FailureHandled(env: Env, s: State, log: seq<Entry>)
    requires AtHandleFailure(env, s, log)
    ensures s.working == Some(s.pending[0]) && AtClassify(env, HandleFailure(s).state, log + [RolledBack(s.pending[0])])
  {
    ViewAppended(log, s, RolledBack(s.pending[0]), HandleFailure(s).state);
    CodeOfChecksIsValidation(Last(s.validations).checks);
    hide CodeOfChecks, RecoverableChecks;
  }

  lemma {:induction false} CodeOfChecksIsValidation(checks: seq<Check>)
    ensures IsValidationCode(CodeOfChecks(checks))
  {
    if checks != [] {
      CodeOfChecksIsValidation(checks[1..]);
    }
  }

  /* ---------- Retry ---------- */

  lemma EscalationFollows(env: Env, s: State, log: seq<Entry>, queue: seq<string>)
    requires Frame(env, s, log, queue) && AtClassify(env, s, log) && !CanRetry(env, s)
    ensures var o := ClassifyUpdate(env, s);
      && o.Done? && o.entries == [] && SameBudget(s, o.state) && SelectFailure(o.state) == Goto(Escalate)
      && Frame(env, o.state, log, queue) && AtEscalate(env, o.state, log)
  {
    SilentFrame(env, s, log, queue, ClassifyUpdate(env, s).state);
  }

  // A retry is only ever taken for a failed validation or a failed delivery, never for a rejection.
  lemma RetriedFailure(env: Env, s: State, log: seq<Entry>)
    requires AtClassify(env, s, log) && CanRetry(env, s)
    ensures var code := Last(s.errors).code;
      IsDeliveryCode(code) || IsValidationCode(code)
    ensures s.retryCount + 1 <= RetryCap(env)
  {
  }

  lemma LaneRetried(env: Env, s: State, log: seq<Entry>, queue: seq<string>)
    requires Frame(env, s, log, queue) && AtClassify(env, s, log) && CanRetry(env, s)
    requires !IsDeliveryCode(Last(s.errors).code)
    ensures var o := ClassifyUpdate(env, s);
      && o.Done? && o.entries == [] && SelectFailure(o.state) == Goto(RetryNode(s).value)
      && o.state.pending == s.pending && o.state.retryCount == s.retryCount + 1 <= RetryCap(env)
      && Frame(env, o.state, log, queue) && AtLane(env, o.state, log, s.route.value.strategy)
      && ScaffoldPrepared(o.state)
  {
    RetriedFailure(env, s, log);
    SilentFrame(env, s, log, queue, ClassifyUpdate(env, s).state);
  }

  lemma DeliveryRetried(env: Env, s: State, log: seq<Entry>, queue: seq<string>)
    requires Frame(env, s, log, queue) && AtClassify(env, s, log) && CanRetry(env, s)
    requires IsDeliveryCode(Last(s.errors).code)
    ensures var o := ClassifyUpdate(env, s);
      && o.Done? && o.entries == [] && SelectFailure(o.state) == Goto(PublishRemediation)
      && o.state.pending == s.pending && o.state.retryCount == s.retryCount + 1 <= RetryCap(env)
      && Frame(env, o.state, log, queue) && DeliveryReady(env, o.state, log)
  {
    RetriedFailure(env, s, log);
    SilentFrame(env, s, log, queue, ClassifyUpdate(env, s).state);
  }

  lemma EscalateNode(env: Env, s: State, log: seq<Entry>, queue: seq<string>)
    requires Frame(env, s, log, queue) && AtEscalate(env, s, log)
    ensures var o := EscalateUpdate(s);
      o.Done? && o.entries == [] && SameBudget(s, o.state) && !Pausing(o.state) && Frame(env, o.state, log, queue) && AtEnd(env, o.state, log)
  {
    var s' := EscalateUpdate(s).state;
    SilentFrame(env, s, log, queue, s');
    assert EndsAs(env, s', log, EndedEscalated);
  }

  /* ---------- Delivery ---------- */

  // Publication has begun and the stages recorded in d are done.
  ghost predicate Delivering(env: Env, s: State, log: seq<Entry>, queue: seq<string>, d: Delivery) {
    var s' := WithDelivery(s, d);
    var log' := log + d.entries;
    && Frame(env, s', log', queue) && Active(env, s', log') && StagesOrdered(s')
    && PublishRun(s.pending[0]) in log'
    && s'.policyDecisions != [] && Last(s'.policyDecisions).requiresDelivery == s.requiresDelivery
    && (s.requiresDelivery ==> HasApproved(s, DeliveryStage))
  }

  lemma DeliveryBegins(env: Env, s: State, log: seq<Entry>, queue: seq<string>)
    requires Frame(env, s, log, queue) && DeliveryReady(env, s, log)
    ensures Delivering(env, s, log, queue, Delivery(s.branch, s.pullRequest, s.jira, [PublishRun(s.pending[0])], None))
  {
    var e := PublishRun(s.pending[0]);
    HeadNotCompleted(s, queue);
    RecordedFrame(env, s, log, queue, s, e);
    ViewAppended(log, s, e, s);
    assert WithDelivery(s, Delivery(s.branch, s.pullRequest, s.jira, [e], None)) == s;
  }

  // One more stage is recorded: s' is s with that stage's result filled in.
  lemma StageStep(env: Env, s: State, log: seq<Entry>, queue: seq<string>, e: Entry, s': State)
    requires Frame(env, s, log, queue) && Active(env, s, log)
    requires e.repo == s.pending[0] && Allowed(env, log, e)
    requires e.BranchPublished? || e.PullRequestOpened? || e.JiraCompleted?
    requires s' == s.(branch := s'.branch, pullRequest := s'.pullRequest, jira := s'.jira)
    requires s'.branch == if e.BranchPublished? then Some(s.pending[0]) else s.branch
    requires s'.pullRequest == if e.PullRequestOpened? then Some(s.pending[0]) else s.pullRequest
    requires s'.jira == if e.JiraCompleted? then Some(s.pending[0]) else s.jira
    ensures Frame(env, s', log + [e], queue) && Active(env, s', log + [e])
  {
    RecordedFrame(env, s, log, queue, s', e);
    ViewAppended(log, s, e, s');
  }

  lemma StageRecorded(env: Env, s: State, log: seq<Entry>, queue: seq<string>, d: Delivery, e: Entry, d': Delivery)
    requires Delivering(env, s, log, queue, d)
    requires e.repo == s.pending[0] && (e.BranchPublished? || e.PullRequestOpened? || e.JiraCompleted?)
    requires Allowed(env, log + d.entries, e)
    requires d'.entries == d.entries + [e]
    requires d'.branch == if e.BranchPublished? then Some(s.pending[0]) else d.branch
    requires d'.pullRequest == if e.PullRequestOpened? then Some(s.pending[0]) else d.pullRequest
    requires d'.jira == if e.JiraCompleted? then Some(s.pending[0]) else d.jira
    requires StagesOrdered(WithDelivery(s, d'))
    ensures Delivering(env, s, log, queue, d')
  {
    var log' := log + d.entries;
    var s' := WithDelivery(s, d');
    assert log + d'.entries == log' + [e];
    StageStep(env, WithDelivery(s, d), log', queue, e, s');
    assert Frame(env, s', log + d'.entries, queue);
    assert Active(env, s', log + d'.entries);
    assert PublishRun(s.pending[0]) in log';
  }

  lemma BranchStage(env: Env, s: State, log: seq<Entry>, queue: seq<string>, call: Call, d: Delivery)
    requires Delivering(env, s, log, queue, d)
    ensures Delivering(env, s, log, queue, DeliverBranch(s.pending[0], call, d))
    ensures var d' := DeliverBranch(s.pending[0], call, d);
      d'.failure.None? ==> d'.branch.Some?
  {
    var d' := DeliverBranch(s.pending[0], call, d);
    HeadNotCompleted(WithDelivery(s, d), queue);
    if d.failure.None? && d.branch.None? && call.Succeeds? {
      StageRecorded(env, s, log, queue, d, BranchPublished(s.pending[0]), d');
    }
  }

  lemma PullRequestStage(env: Env, s: State, log: seq<Entry>, queue: seq<string>, call: Call, d: Delivery)
    requires Delivering(env, s, log, queue, d) && (d.failure.None? ==> d.branch.Some?)
    ensures Delivering(env, s, log, queue, DeliverPullRequest(s.pending[0], DraftFlag(s), call, d))
    ensures var d' := DeliverPullRequest(s.pending[0], DraftFlag(s), call, d);
      d'.failure.None? ==> d'.pullRequest.Some?
  {
    var d' := DeliverPullRequest(s.pending[0], DraftFlag(s), call, d);
    HeadNotCompleted(WithDelivery(s, d), queue);
    if d.failure.None? && d.pullRequest.None? && call.Succeeds? {
      StageRecorded(env, s, log, queue, d, PullRequestOpened(s.pending[0], DraftFlag(s)), d');
    }
  }

  lemma JiraStage(env: Env, s: State, log: seq<Entry>, queue: seq<string>, call: Call, d: Delivery)
    requires Delivering(env, s, log, queue, d) && (d.failure.None? ==> d.pullRequest.Some?)
    ensures Delivering(env, s, log, queue, DeliverJira(s.pending[0], call, d))
    ensures var d' := DeliverJira(s.pending[0], call, d);
      d'.failure.None? ==> d'.jira.Some?
  {
    var d' := DeliverJira(s.pending[0], call, d);
    HeadNotCompleted(WithDelivery(s, d), queue);
    if d.failure.None? && d.jira.None? && call.Succeeds? {
      StageRecorded(env, s, log, queue, d, JiraCompleted(s.pending[0]), d');
    }
  }

  /** A delivery that fails has not completed its last stage, so the fallback error code is never
      used; the code names the first stage that is missing. */
  lemma FailedDeliveryIsIncomplete(s: State, repo: string, x: Input)
    requires StagesOrdered(s) && s.jira.None?
    ensures var d := Deliver(s, repo, x);
      && (d.failure.Some? <==> d.jira.None?)
      && StagesOrdered(WithDelivery(s, d))
      && (d.failure.Some? ==> !DeliveryErrorCode(d).DeliveryFailed?)
      && (DeliveryErrorCode(d).DeliveryBranchPublicationFailed? <==> d.branch.None?)
      && (DeliveryErrorCode(d).DeliveryPullRequestFailed? <==> d.branch.Some? && d.pullRequest.None?)
  {
  }

  lemma DeliverNode(env: Env, s: State, log: seq<Entry>, queue: seq<string>, x: Input)
    requires Frame(env, s, log, queue) && DeliveryReady(env, s, log)
    ensures var d := Deliver(s, s.pending[0], x);
      Delivering(env, s, log, queue, d) && (d.failure.Some? <==> d.jira.None?)
  {
    var r := s.pending[0];
    var d0 := Delivery(s.branch, s.pullRequest, s.jira, [PublishRun(r)], None);
    DeliveryBegins(env, s, log, queue);
    BranchStage(env, s, log, queue, x.branch, d0);
    var d1 := DeliverBranch(r, x.branch, d0);
    PullRequestStage(env, s, log, queue, x.pullRequest, d1);
    JiraStage(env, s, log, queue, x.jira, DeliverPullRequest(r, DraftFlag(s), x.pullRequest, d1));
    FailedDeliveryIsIncomplete(s, r, x);
  }

  lemma DeliveryFails(env: Env, s: State, log: seq<Entry>, queue: seq<string>, x: Input)
    requires Frame(env, s, log, queue) && DeliveryReady(env, s, log)
    requires Deliver(s, s.pending[0], x).failure.Some?
    ensures var o := Publish(s, x);
      && o.Done? && SelectPostDelivery(o.state) == Goto(ClassifyFailure) && SameBudget(s, o.state) && LatestPassed(o.state)
      && Frame(env, o.state, log + o.entries, queue) && AtClassify(env, o.state, log + o.entries)
  {
    var d := Deliver(s, s.pending[0], x);
    DeliverNode(env, s, log, queue, x);
    FailedDeliveryIsIncomplete(s, s.pending[0], x);
    var s' := Publish(s, x).state;
    DeliveryErrorKeeps(env, WithDelivery(s, d), log + d.entries, queue, s', WorkflowError(DeliveryErrorCode(d), d.failure.value, s.working));
  }

  lemma DeliveryErrorKeeps(env: Env, s: State, log: seq<Entry>, queue: seq<string>, s': State, e: WorkflowError)
    requires Frame(env, s, log, queue) && DeliveryReady(env, s, log)
    requires IsDeliveryCode(e.code) && e.repository == s.working
    requires s' == s.(errors := s.errors + [e], status := Failed, audit := s'.audit)
    ensures Frame(env, s', log, queue) && AtClassify(env, s', log)
  {
    SilentFrame(env, s, log, queue, s');
  }

  lemma FinishQueue(s: State, queue: seq<string>, s': State)
    requires QueueConserved(s, queue) && s.pending != []
    requires s'.completed == s.completed + [s.pending[0]] && s'.pending == Without(s.pending, s.pending[0])
    ensures QueueConserved(s', queue)
  {
    var r := s.pending[0];
    var rest := Distinct(Without(s.pending[1..], r));
    assert Distinct(s.pending) == [r] + rest;
    assert s.completed + ([r] + rest) == s.completed + [r] + rest;
  }

  // The finished repository leaves the queue and joins the completed ones.
  lemma FinishFrame(env: Env, s: State, log: seq<Entry>, queue: seq<string>, s': State)
    requires Frame(env, s, log, queue) && s.pending != [] && s.working == Some(s.pending[0])
    requires Allowed(env, log, RepoCompleted(s.pending[0]))
    requires s'.completed == s.completed + [s.pending[0]] && s'.pending == Without(s.pending, s.pending[0])
    requires s'.repoMap == s.repoMap
    ensures Frame(env, s', log + [RepoCompleted(s.pending[0])], queue)
  {
    var r := s.pending[0];
    JustifiedAppend(env, log, RepoCompleted(r));
    FinishQueue(s, queue, s');
  }

  lemma FinishNode(env: Env, s: State, log: seq<Entry>, queue: seq<string>, n: Node)
    requires Frame(env, s, log, queue) && Active(env, s, log) && Counted(env, s)
    requires Allowed(env, log, RepoCompleted(s.pending[0]))
    ensures var s' := FinishRepository(s, n, s.pending[0]);
      var log' := log + [RepoCompleted(s.pending[0])];
      && HeadFinished(s, s')
      && Frame(env, s', log', queue)
      && if s'.pending != [] then AtDetect(env, s', log') else AtEnd(env, s', log')
  {
    var r := s.pending[0];
    var s' := FinishRepository(s, n, r);
    HeadNotCompleted(s, queue);
    FinishFrame(env, s, log, queue, s');
    if s'.pending == [] {
      assert EndsAs(env, s', log + [RepoCompleted(r)], EndedCompleted);
    }
  }

  lemma DeliverySucceeds(env: Env, s: State, log: seq<Entry>, queue: seq<string>, x: Input)
    requires Frame(env, s, log, queue) && DeliveryReady(env, s, log)
    requires Deliver(s, s.pending[0], x).failure.None?
    ensures var o := Publish(s, x);
      && o.Done? && HeadFinished(s, o.state)
      && Frame(env, o.state, log + o.entries, queue)
      && if o.state.pending != [] then AtDetect(env, o.state, log + o.entries) else AtEnd(env, o.state, log + o.entries)
  {
    hide *;
    ReadyToDeliver(env, s, log);
    var r := s.pending[0];
    var d := Deliver(s, r, x);
    var s1 := WithDelivery(s, d);
    var log1 := log + d.entries;
    DeliverNode(env, s, log, queue, x);
    DeliveredNode(env, s, log, queue, d);
    PublishFinishes(s, r, x);
    assert log + Publish(s, x).entries == log1 + [RepoCompleted(r)];
    FinishNode(env, s1, log1, queue, PublishRemediation);
    SameHead(s, s1, FinishRepository(s1, PublishRemediation, r));
  }

  lemma ReadyToDeliver(env: Env, s: State, log: seq<Entry>)
    requires DeliveryReady(env, s, log)
    ensures s.pending != [] && s.working == Some(s.pending[0])
  {
  }

  lemma DeliveredNode(env: Env, s: State, log: seq<Entry>, queue: seq<string>, d: Delivery)
    requires DeliveryReady(env, s, log) && Delivering(env, s, log, queue, d) && d.jira.Some?
    ensures var s1 := WithDelivery(s, d);
      && s1.pending == s.pending
      && Frame(env, s1, log + d.entries, queue) && Active(env, s1, log + d.entries) && Counted(env, s1)
      && Allowed(env, log + d.entries, RepoCompleted(s.pending[0]))
  {
    var s1 := WithDelivery(s, d);
    assert Active(env, s1, log + d.entries) && Counted(env, s) && !env.dryRun;
    NotYetLogged(env, s1, log + d.entries, queue);
    hide Frame;
    CompletionAllowed(env, s1, log + d.entries, s.pending[0]);
    hide Active, Allowed;
  }

  lemma NotYetLogged(env: Env, s: State, log: seq<Entry>, queue: seq<string>)
    requires Frame(env, s, log, queue) && s.pending != []
    ensures RepoCompleted(s.pending[0]) !in log
  {
    HeadNotCompleted(s, queue);
  }

  lemma CompletionAllowed(env: Env, s: State, log: seq<Entry>, r: string)
    requires Active(env, s, log) && s.pending[0] == r && s.jira.Some? && !env.dryRun && RepoCompleted(r) !in log
    ensures Allowed(env, log, RepoCompleted(r))
  {
  }

  lemma SameHead(s: State, s1: State, s': State)
    requires s.pending == s1.pending && HeadFinished(s1, s')
    ensures HeadFinished(s, s')
  {
  }

  lemma PublishFinishes(s: State, r: string, x: Input)
    requires s.working == Some(r) && Deliver(s, r, x).failure.None?
    ensures var d := Deliver(s, r, x);
      Publish(s, x) == Done(FinishRepository(WithDelivery(s, d), PublishRemediation, r), d.entries + [RepoCompleted(r)])
  {
    hide Deliver, FinishRepository;
  }

  lemma SkipNode(env: Env, s: State, log: seq<Entry>, queue: seq<string>)
    requires Frame(env, s, log, queue) && AtSkip(env, s, log)
    ensures var o := SkipPublish(s);
      && o.Done? && HeadFinished(s, o.state)
      && Frame(env, o.state, log + o.entries, queue)
      && if o.state.pending != [] then AtDetect(env, o.state, log + o.entries) else AtEnd(env, o.state, log + o.entries)
  {
    hide *;
    SkipRecorded(env, s, log, queue);
    var r := s.pending[0];
    FinishNode(env, s, log + [DryRunSkipped(r)], queue, SkipPublishForDryRun);
    assert log + [DryRunSkipped(r), RepoCompleted(r)] == log + [DryRunSkipped(r)] + [RepoCompleted(r)];
  }

  lemma SkipRecorded(env: Env, s: State, log: seq<Entry>, queue: seq<string>)
    requires Frame(env, s, log, queue) && AtSkip(env, s, log)
    ensures s.pending != [] && SkipPublish(s) == Done(
      FinishRepository(s, SkipPublishForDryRun, s.pending[0]), [DryRunSkipped(s.pending[0]), RepoCompleted(s.pending[0])])
    ensures var log' := log + [DryRunSkipped(s.pending[0])];
      && Frame(env, s, log', queue) && Active(env, s, log') && Counted(env, s)
      && Allowed(env, log', RepoCompleted(s.pending[0]))
  {
    NotYetLogged(env, s, log, queue);
    SkipAllowed(env, s, log);
    hide Frame, FinishRepository, LogView, OwnedBy, Cleared;
    RecordedFrame(env, s, log, queue, s, DryRunSkipped(s.pending[0]));
  }

  lemma SkipAllowed(env: Env, s: State, log: seq<Entry>)
    requires AtSkip(env, s, log) && RepoCompleted(s.pending[0]) !in log
    ensures var e := DryRunSkipped(s.pending[0]);
      && s.working == Some(s.pending[0]) && Allowed(env, log, e)
      && Active(env, s, log + [e]) && Allowed(env, log + [e], RepoCompleted(s.pending[0]))
  {
    ViewAppended(log, s, DryRunSkipped(s.pending[0]), s);
    hide OwnedBy;
  }
}
