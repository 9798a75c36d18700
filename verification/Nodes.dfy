/**
 The nodes that the source writes step by step (loops, lists it copies and extends, stages that may
 break off), as methods proved to compute the updates of the transition system. `ExecuteNode` is the
 node execution a thread performs.
 */
module Nodes {
  import opened Collections
  import opened Verdicts
  import opened Workflow
  import opened Changes
  import opened Trace

  /* ---------- nodes/intake.py ---------- */

  // The last target of its name for which the lookup found no pull request.
  predicate LastQueued(targets: seq<Target>, existing: seq<bool>, i: nat) {
    && i < |targets| && !HasExisting(existing, i)
    && forall j :: i < j < |targets| && targets[j].repository == targets[i].repository ==> HasExisting(existing, j)
  }

  // The workspace of r has the tags of that target.
  predicate Carries(targets: seq<Target>, existing: seq<bool>, workspaces: map<string, Workspace>, r: string) {
    exists i ::
      && 0 <= i < |targets| && LastQueued(targets, existing, i) && targets[i].repository == r
      && r in workspaces && workspaces[r] == Workspace(r, targets[i].tags)
  }

  /** The loop of check_repository_idempotency over the targets. A queued repository gets a workspace with
      the tags of the last queued target of its name. */
  method CheckRepositoryIdempotencyNode(s: State, x: Input) returns (s': State)
    ensures Done(s', []) == CheckIdempotency(s, x)
    ensures forall r :: r in s'.pending ==> Carries(s.targets, x.existing, s'.repoMap, r)
    ensures s'.pending == PendingOf(s.targets, x.existing) && s'.skipped == s.skipped + SkippedOf(s.targets, x.existing)
    ensures s'.status == if s'.pending == [] then Completed else s.status
    ensures s' == s.(repoMap := s'.repoMap, pending := s'.pending, skipped := s'.skipped, status := s'.status, audit := s'.audit)
  {
    var repoMap := s.repoMap;
    var skipped := s.skipped;
    var pending: seq<string> := [];
    for i := 0 to |s.targets|
      invariant repoMap == WorkspacesOf(s.targets[..i], x.existing, s.repoMap)
      invariant skipped == s.skipped + SkippedOf(s.targets[..i], x.existing)
      invariant pending == PendingOf(s.targets[..i], x.existing)
    {
      var target := s.targets[i];
      assert s.targets[..i + 1][..i] == s.targets[..i];
      if HasExisting(x.existing, i) {
        skipped := skipped + [target.repository];
        continue;
      }
      repoMap := repoMap[target.repository := Workspace(target.repository, target.tags)];
      pending := pending + [target.repository];
    }
    assert s.targets[..|s.targets|] == s.targets;
    s' := Noted(s, CheckRepositoryIdempotency).(
      repoMap := repoMap, pending := pending, skipped := skipped,
      status := if pending == [] then Completed else s.status);
    hide *;
    IntakeCarries(s.targets, x.existing, s.repoMap);
  }

  lemma IntakeCarries(targets: seq<Target>, existing: seq<bool>, start: map<string, Workspace>)
    ensures forall r :: r in PendingOf(targets, existing) ==> Carries(targets, existing, WorkspacesOf(targets, existing, start), r)
  {
    forall r | r in PendingOf(targets, existing)
      ensures Carries(targets, existing, WorkspacesOf(targets, existing, start), r)
    {
      var i := QueuedTarget(targets, existing, r);
      hide LastQueued, PendingOf, WorkspacesOf;
      WorkspaceCarriesTags(targets, existing, start, i);
    }
  }

  lemma {:induction false} QueuedTarget(targets: seq<Target>, existing: seq<bool>, r: string) returns (i: nat)
    requires r in PendingOf(targets, existing)
    ensures LastQueued(targets, existing, i) && targets[i].repository == r
  {
    var n := |targets| - 1;
    if !HasExisting(existing, n) && targets[n].repository == r {
      i := n;
    } else {
      i := QueuedTarget(targets[..n], existing, r);
    }
  }

  lemma {:induction false} WorkspaceCarriesTags(
    targets: seq<Target>, existing: seq<bool>, start: map<string, Workspace>, i: nat)
    requires LastQueued(targets, existing, i)
    ensures var r := targets[i].repository; var map' := WorkspacesOf(targets, existing, start);
      r in map' && map'[r] == Workspace(r, targets[i].tags)
  {
    var n := |targets| - 1;
    if i < n {
      WorkspaceCarriesTags(targets[..n], existing, start, i);
    }
  }

  // The list is made of the targets at these positions, in their order.
  predicate Selects(targets: seq<Target>, picks: seq<nat>, names: seq<string>) {
    && |picks| == |names|
    && (forall j :: 0 <= j < |picks| ==> picks[j] < |targets| && names[j] == targets[picks[j]].repository)
    && (forall j, k :: 0 <= j < k < |picks| ==> picks[j] < picks[k])
  }

  lemma SelectsMore(targets: seq<Target>, t: Target, picks: seq<nat>, names: seq<string>)
    requires Selects(targets, picks, names)
    ensures Selects(targets + [t], picks, names)
    ensures Selects(targets + [t], picks + [|targets|], names + [t.repository])
  {
  }

  /** Intake puts each target on exactly one of the two lists, in order: on the pending list exactly
      when its lookup found no pull request, on the skipped list otherwise. */
  lemma {:induction false} IntakePartitions(targets: seq<Target>, existing: seq<bool>)
    returns (kept: seq<nat>, skipped: seq<nat>)
    ensures Selects(targets, kept, PendingOf(targets, existing))
    ensures Selects(targets, skipped, SkippedOf(targets, existing))
    ensures forall i :: 0 <= i < |targets| ==> (i in kept <==> !HasExisting(existing, i))
    ensures forall i :: 0 <= i < |targets| ==> (i in skipped <==> HasExisting(existing, i))
    ensures |kept| + |skipped| == |targets|
  {
    kept, skipped := [], [];
    if targets != [] {
      var n := |targets| - 1;
      kept, skipped := IntakePartitions(targets[..n], existing);
      assert targets[..n] + [targets[n]] == targets;
      SelectsMore(targets[..n], targets[n], kept, PendingOf(targets[..n], existing));
      SelectsMore(targets[..n], targets[n], skipped, SkippedOf(targets[..n], existing));
      if HasExisting(existing, n) {
        skipped := skipped + [n];
        assert PendingOf(targets, existing) == PendingOf(targets[..n], existing);
      } else {
        kept := kept + [n];
        assert SkippedOf(targets, existing) == SkippedOf(targets[..n], existing);
      }
    }
  }

  /* ---------- policy/engine.py and nodes/policy.py ---------- */

  method CollectApprovalReasons(s: State, config: PolicyConfig, tags: set<string>) returns (reasons: seq<ApprovalReason>)
    ensures reasons == ApprovalReasons(s, config, tags)
    ensures RouteRequires in reasons <==> s.route.Some? && s.route.value.requiresApproval
    ensures ComplexRequires in reasons <==> s.route.Some? && s.route.value.strategy.ComplexRefactor? && config.complexNeedsApproval
    ensures TransitiveRequires in reasons <==>
      s.route.Some? && s.route.value.strategy.TransitiveOverride? && config.transitiveNeedsApproval
    ensures TagsRequire in reasons <==> exists t :: t in tags && t in config.approvalTags
    ensures NoDuplicates(reasons)
  {
    SharedTag(tags, config.approvalTags);
    reasons := [];
    if s.route.Some? {
      var route := s.route.value;
      if route.requiresApproval {
        reasons := reasons + [RouteRequires];
      }
      if route.strategy.ComplexRefactor? && config.complexNeedsApproval {
        reasons := reasons + [ComplexRequires];
      }
      if route.strategy.TransitiveOverride? && config.transitiveNeedsApproval {
        reasons := reasons + [TransitiveRequires];
      }
    }
    if tags * config.approvalTags != {} {
      reasons := reasons + [TagsRequire];
    }
  }

  method Evaluate(config: PolicyConfig, s: State) returns (decision: PolicyDecision)
    ensures decision == EvaluatePolicy(config, s)
    ensures decision.allowed <==> forall t :: t in CurrentTags(s) ==> t !in config.blockedTags
    ensures decision.requiresApproval <==>
      || !decision.allowed || s.requiresApproval
      || ApprovalReasons(s, config, CurrentTags(s)) != []
    ensures decision.requiresDelivery <==>
      decision.allowed && s.route.Some? && s.route.value.strategy.ComplexRefactor? && config.complexNeedsDelivery
  {
    var tags := CurrentTags(s);
    SharedTag(tags, config.blockedTags);
    if tags * config.blockedTags != {} {
      return PolicyDecision(false, true, false);
    }
    var requiresApproval := s.requiresApproval;
    var reasons := CollectApprovalReasons(s, config, tags);
    if reasons != [] {
      requiresApproval := true;
    }
    var requiresDelivery := s.route.Some? && s.route.value.strategy.ComplexRefactor? && config.complexNeedsDelivery;
    return PolicyDecision(true, requiresApproval, requiresDelivery);
  }

  /** The decision goes on record; approval, when asked for, is asked for before remediation; a blocked
      repository ends with an error no retry is for; nothing else changes. */
  method ApplyPolicyNode(env: Env, s: State) returns (s': State, entries: seq<Entry>)
    ensures ApplyPolicyUpdate(env, s) == Done(s', entries)
    ensures var d := EvaluatePolicy(env.policy, s);
      && s'.policyDecisions == s.policyDecisions + [d]
      && s'.requiresApproval == d.requiresApproval && s'.requiresDelivery == d.requiresDelivery
      && s'.pendingStage == (if d.requiresApproval then Some(RemediationStage) else s.pendingStage)
      && s'.errors == s.errors + (if d.allowed then [] else [WorkflowError(PolicyBlocked, false, s.working)])
      && (s'.status.Failed? <==> !d.allowed || (!d.requiresApproval && s.status.Failed?))
      && s.audit < s'.audit
      && s' == s.(policyDecisions := s'.policyDecisions, requiresApproval := s'.requiresApproval,
           requiresDelivery := s'.requiresDelivery, pendingStage := s'.pendingStage, errors := s'.errors,
           status := s'.status, audit := s'.audit)
  {
    var decision := Evaluate(env.policy, s);
    hide EvaluatePolicy;
    var event := AuditEvent(ApplyPolicy, s.working, DecisionOf(s));
    var audit := s.audit + [event];
    s' := s.(
      policyDecisions := s.policyDecisions + [decision],
      requiresApproval := decision.requiresApproval,
      requiresDelivery := decision.requiresDelivery);
    if decision.requiresApproval {
      audit := audit + [event];
      s' := s'.(status := Pending, pendingStage := Some(RemediationStage));
    }
    if !decision.allowed {
      s' := s'.(errors := s.errors + [WorkflowError(PolicyBlocked, false, s.working)], status := Failed);
    }
    s' := s'.(audit := audit);
    entries := if s.working.Some? then [PolicyDecided(s.working.value, decision)] else [];
    assert ApplyPolicyUpdate(env, s) == Done(s', entries);
    hide *;
    PolicyFields(env, s, s', entries);
  }

  lemma PolicyFields(env: Env, s: State, s': State, entries: seq<Entry>)
    requires ApplyPolicyUpdate(env, s) == Done(s', entries)
    ensures var d := EvaluatePolicy(env.policy, s);
      && s'.policyDecisions == s.policyDecisions + [d]
      && s'.requiresApproval == d.requiresApproval && s'.requiresDelivery == d.requiresDelivery
      && s'.pendingStage == (if d.requiresApproval then Some(RemediationStage) else s.pendingStage)
      && s'.errors == s.errors + (if d.allowed then [] else [WorkflowError(PolicyBlocked, false, s.working)])
      && (s'.status.Failed? <==> !d.allowed || (!d.requiresApproval && s.status.Failed?))
      && s.audit < s'.audit
      && s' == s.(policyDecisions := s'.policyDecisions, requiresApproval := s'.requiresApproval,
           requiresDelivery := s'.requiresDelivery, pendingStage := s'.pendingStage, errors := s'.errors,
           status := s'.status, audit := s'.audit)
  {
    hide EvaluatePolicy;
  }

  /** Policy in the terms of its configuration: a blocked tag blocks; otherwise approval is required
      exactly when the route asks for it, or the configuration does for the route or for a tag. */
  lemma PolicyMeans(config: PolicyConfig, s: State)
    requires s.route.Some? && s.requiresApproval == s.route.value.requiresApproval
    requires s.working.Some? && s.working.value in s.repoMap
    ensures var d := EvaluatePolicy(config, s); var tags := s.repoMap[s.working.value].tags;
      && (d.allowed <==> forall t :: t in tags ==> t !in config.blockedTags)
      && (d.requiresApproval <==>
            || !d.allowed || s.route.value.requiresApproval
            || (s.route.value.strategy.ComplexRefactor? && config.complexNeedsApproval)
            || (s.route.value.strategy.TransitiveOverride? && config.transitiveNeedsApproval)
            || exists t :: t in tags && t in config.approvalTags)
      && (d.requiresDelivery <==> d.allowed && s.route.value.strategy.ComplexRefactor? && config.complexNeedsDelivery)
  {
    var tags := s.repoMap[s.working.value].tags;
    SharedTag(tags, config.approvalTags);
    SharedTag(tags, config.blockedTags);
  }

  lemma SharedTag(a: set<string>, b: set<string>)
    ensures a * b != {} <==> exists t :: t in a && t in b
  {
    if t :| t in a * b {
      assert t in a && t in b;
    }
    if t :| t in a && t in b {
      assert t in a * b;
    }
  }

  /* ---------- nodes/approval.py ---------- */

  /** Without a decision the gate only waits; a decision is recorded for this stage and no other, and
      takes the request back; a rejection is an error no retry is for. */
  method ReviewApprovalNode(stage: Stage, s: State) returns (s': State, entries: seq<Entry>)
    ensures Review(stage, s) == Done(s', entries)
    ensures DecisionOf(s).Undecided? ==> s' == s.(status := Pending, audit := s'.audit)
    ensures !DecisionOf(s).Undecided? ==>
      && s'.approvals == s.approvals + [ApprovalRecord(stage, DecisionOf(s))] && s'.pendingStage.None?
      && s' == s.(status := s'.status, approvals := s'.approvals, pendingStage := None, errors := s'.errors, audit := s'.audit)
    ensures forall other :: HasApproved(s', other) <==> HasApproved(s, other) || (other == stage && DecisionOf(s).Approved?)
    ensures s'.errors == s.errors + (if DecisionOf(s).Rejected? then [WorkflowError(ApprovalRejected, false, s.working)] else [])
    ensures entries == if DecisionOf(s).Approved? && s.working.Some? then [Granted(s.working.value, stage)] else []
    ensures |s'.audit| == |s.audit| + 1 && s.audit < s'.audit
  {
    var decision := DecisionOf(s);
    var audit := s.audit + [AuditEvent(GateOf(stage), s.working, decision)];
    var approvals := s.approvals;
    entries := [];
    if decision.Undecided? {
      s' := s.(status := Pending, audit := audit);
      return;
    }
    approvals := approvals + [ApprovalRecord(stage, decision)];
    if decision.Approved? {
      s' := s.(status := InProgress, approvals := approvals, pendingStage := None, audit := audit);
      if s.working.Some? {
        entries := [Granted(s.working.value, stage)];
      }
      return;
    }
    var errors := s.errors + [WorkflowError(ApprovalRejected, false, s.working)];
    s' := s.(errors := errors, status := Failed, approvals := approvals, pendingStage := None, audit := audit);
  }

  /* ---------- nodes/validation.py and nodes/classify_failure.py ---------- */

  /** The rollback is given the files the lane reported; one error, made of the latest result, is added; of
      the rest only the status and the audit list change. */
  method HandleValidationFailureNode(s: State) returns (s': State)
    requires s.working.Some? && s.validations != []
    ensures s' == HandleFailure(s).state
    ensures s'.rollback == Some(s.modified) && s'.status.Failed? && s.audit < s'.audit
    ensures s'.errors == s.errors + [WorkflowError(
      CodeOfChecks(Last(s.validations).checks), RecoverableChecks(Last(s.validations).checks), s.working)]
    ensures s' == s.(rollback := s'.rollback, errors := s'.errors, status := Failed, audit := s'.audit)
  {
    var result := Last(s.validations);
    var code := BuildValidationErrorCode(result);
    var recoverable := IsRecoverableValidationFailure(result);
    var errors := s.errors + [WorkflowError(code, recoverable, s.working)];
    s' := s.(
      rollback := Some(s.modified), errors := errors, status := Failed,
      audit := s.audit + [AuditEvent(HandleValidationFailure, s.working, DecisionOf(s))]);
  }

  /** The failure is counted and classified, a retry is counted when there is one, and of the rest only
      what the attempt left behind (forgotten when a lane runs again), the status and the audit list change. */
  method ClassifyFailureNode(env: Env, s: State) returns (s': State)
    ensures s' == ClassifyUpdate(env, s).state
    ensures s'.totalAttempts == s.totalAttempts + 1
    ensures s'.classifications == s.classifications + [Classify(s.errors, s.validations)]
    ensures s'.retry.Some? && s'.retry.value.classification == Classify(s.errors, s.validations)
    ensures var next := s'.retry.value.nextNode;
      && (next.Escalate? || next.PublishRemediation? || IsLane(next))
      && s'.status == (if next.Escalate? then Failed else InProgress)
      && s'.retryCount == s.retryCount + (if next.Escalate? then 0 else 1)
      && s'.modified == (if IsLane(next) then [] else s.modified)
      && s'.rollback == (if IsLane(next) then None else s.rollback)
      && s'.preflight == (if IsLane(next) then None else s.preflight)
    ensures s' == s.(totalAttempts := s'.totalAttempts, classifications := s'.classifications, retry := s'.retry,
      status := s'.status, retryCount := s'.retryCount, modified := s'.modified, rollback := s'.rollback,
      preflight := s'.preflight, audit := s'.audit)
  {
    RetryNodes(s);
    var totalAttempts := s.totalAttempts + 1;
    var classification := ClassifyLatestFailure(s.errors, s.validations);
    var retryNext := RetryNode(s);
    var canRetry :=
      && retryNext.Some?
      && IsRetryableClass(classification)
      && totalAttempts < env.maxTotal
      && s.retryCount < env.maxRetries
      && s.errors != []
      && Last(s.errors).recoverable;
    hide Classify, RetryNode, IsRetryableClass;
    assert canRetry == CanRetry(env, s);
    hide *;
    var next := if canRetry then retryNext.value else Escalate;
    var retryCount := s.retryCount;
    if next != Escalate {
      retryCount := retryCount + 1;
    }
    s' := s.(
      totalAttempts := totalAttempts,
      classifications := s.classifications + [classification],
      retryCount := retryCount,
      retry := Some(RetryDecision(classification, next)),
      status := if next != Escalate then InProgress else Failed,
      audit := s.audit + [AuditEvent(ClassifyFailure, s.working, DecisionOf(s))]);
    if canRetry && next != PublishRemediation {
      s' := s'.(rollback := None, modified := [], preflight := None);
    }
    ClassifyIs(env, s, classification, next);
  }

  lemma RetryNodes(s: State)
    ensures RetryNode(s).Some? ==> RetryNode(s).value.PublishRemediation? || IsLane(RetryNode(s).value)
    ensures RetryNode(s).Some? ==> !(RetryNode(s).value.PublishRemediation? && IsLane(RetryNode(s).value)) && !IsLane(Escalate)
    ensures RetryNode(s).Some? ==> !RetryNode(s).value.Escalate?
  {
  }

  lemma ClassifyIs(env: Env, s: State, classification: Classification, next: Node)
    requires classification == Classify(s.errors, s.validations)
    requires CanRetry(env, s) ==> RetryNode(s) == Some(next)
    requires !CanRetry(env, s) ==> next == Escalate
    ensures var noted := s.(
        totalAttempts := s.totalAttempts + 1,
        classifications := s.classifications + [classification],
        retryCount := if next != Escalate then s.retryCount + 1 else s.retryCount,
        retry := Some(RetryDecision(classification, next)),
        status := if next != Escalate then InProgress else Failed,
        audit := s.audit + [AuditEvent(ClassifyFailure, s.working, DecisionOf(s))]);
      ClassifyUpdate(env, s).state ==
        if CanRetry(env, s) && next != PublishRemediation then noted.(rollback := None, modified := [], preflight := None) else noted
  {
    assert CanRetry(env, s) ==> RetryNode(s).Some?;
    hide Classify, RetryNode, CanRetry, DecisionOf;
  }

  /* ---------- nodes/delivery.py ---------- */

  // The adapter's side of delivery: what it has done in the outside world so far.
  class DeliveryAdapter {
    var journal: seq<Entry>

    constructor ()
      ensures journal == []
    {
      journal := [];
    }

    // One external call: on success its effect is on the journal, on failure nothing is.
    method Perform(call: Call, e: Entry) returns (result: Option<string>)
      modifies this
      ensures result == if call.Succeeds? then Some(e.repo) else None
      ensures journal == if call.Succeeds? then old(journal) + [e] else old(journal)
    {
      if call.Succeeds? {
        journal := journal + [e];
        return Some(e.repo);
      }
      return None;
    }
  }

  predicate FirstNamed(targets: seq<Target>, repository: string, i: nat) {
    i < |targets| && targets[i].repository == repository && forall j :: 0 <= j < i ==> targets[j].repository != repository
  }

  method FindTarget(targets: seq<Target>, repository: string, otherwise: nat) returns (index: nat)
    ensures index == FindTargetIndex(targets, repository, otherwise)
    ensures (exists i :: 0 <= i < |targets| && targets[i].repository == repository) ==> FirstNamed(targets, repository, index)
    ensures (forall i :: 0 <= i < |targets| ==> targets[i].repository != repository) ==> index == otherwise
  {
    for i := 0 to |targets|
      invariant forall j :: 0 <= j < i ==> targets[j].repository != repository
      invariant i < |targets| && (exists t :: t in targets[i..] && t.repository == repository) ==>
        FindTargetIndex(targets, repository, otherwise) == i + FindTargetIndex(targets[i..], repository, otherwise)
    {
      if targets[i].repository == repository {
        assert targets[i..][0] == targets[i];
        return i;
      }
      assert targets[i..][1..] == targets[i + 1..];
    }
    return otherwise;
  }

  lemma {:induction false} FoundIsFirst(targets: seq<Target>, repository: string, otherwise: nat)
    ensures var i := FindTargetIndex(targets, repository, otherwise);
      if exists t :: t in targets && t.repository == repository then FirstNamed(targets, repository, i) else i == otherwise
  {
    if targets != [] && targets[0].repository != repository && exists t :: t in targets && t.repository == repository {
      var t :| t in targets && t.repository == repository;
      assert t in targets[1..];
      FoundIsFirst(targets[1..], repository, otherwise);
      var i := FindTargetIndex(targets[1..], repository, otherwise);
      assert targets[1..][i] == targets[i + 1];
      assert forall j :: 1 <= j < i + 1 ==> targets[j] == targets[1..][j - 1];
    }
  }

  /** When a repository is finished, the next one's target is the first of its name; the last one leaves the
      current target as it is. */
  lemma NextTargetIsFirst(s: State, n: Node, repo: string)
    ensures var s' := FinishRepository(s, n, repo);
      && s'.targets == s.targets
      && (s'.pending == [] ==> s'.targetIndex == s.targetIndex)
      && (s'.pending != [] && (exists t :: t in s.targets && t.repository == s'.pending[0]) ==>
            FirstNamed(s.targets, s'.pending[0], s'.targetIndex))
  {
    var pending := Without(s.pending, repo);
    hide Without, FindTargetIndex, FirstNamed;
    if pending != [] {
      FoundIsFirst(s.targets, pending[0], s.targetIndex);
    }
  }

  // One stage: not called again once done, nor after an earlier stage failed.
  method RunStage(done: Option<string>, before: Option<bool>, call: Call, e: Entry, adapter: DeliveryAdapter)
    returns (result: Option<string>, performed: seq<Entry>, failure: Option<bool>)
    requires IsEffect(e)
    modifies adapter
    ensures adapter.journal == old(adapter.journal) + performed
    ensures before.Some? || done.Some? ==> result == done && performed == [] && failure == before
    ensures before.None? && done.None? ==>
      if call.Succeeds? then result == Some(e.repo) && performed == [e] && failure.None?
      else result.None? && performed == [] && failure == Some(call.recoverable)
  {
    result, performed, failure := done, [], before;
    if before.None? && done.None? {
      result := adapter.Perform(call, e);
      if call.Succeeds? {
        performed := [e];
      } else {
        failure := Some(call.recoverable);
      }
    }
  }

  // The three stages, breaking off at the first failure (the `try` block of the source).
  method RunStages(s: State, repo: string, x: Input, adapter: DeliveryAdapter) returns (d: Delivery)
    modifies adapter
    ensures d == Deliver(s, repo, x)
    ensures adapter.journal == old(adapter.journal) + Effects(d.entries)
  {
    var entries: seq<Entry> := [PublishRun(repo)];
    NoEffects(PublishRun(repo));
    hide Effects, DraftFlag;
    ghost var before := adapter.journal;
    ghost var d0 := Delivery(s.branch, s.pullRequest, s.jira, entries, None);
    var branch, b, failure := RunStage(s.branch, None, x.branch, BranchPublished(repo), adapter);
    entries := Recorded(entries, b);
    ghost var d1 := Delivery(branch, s.pullRequest, s.jira, entries, failure);
    assert d1 == DeliverBranch(repo, x.branch, d0);
    var pullRequest, p;
    pullRequest, p, failure := RunStage(s.pullRequest, failure, x.pullRequest, PullRequestOpened(repo, DraftFlag(s)), adapter);
    entries := Recorded(entries, p);
    ghost var d2 := Delivery(branch, pullRequest, s.jira, entries, failure);
    assert d2 == DeliverPullRequest(repo, DraftFlag(s), x.pullRequest, d1);
    var jira, j;
    jira, j, failure := RunStage(s.jira, failure, x.jira, JiraCompleted(repo), adapter);
    entries := Recorded(entries, j);
    d := Delivery(branch, pullRequest, jira, entries, failure);
    assert d == DeliverJira(repo, x.jira, d2);
    assert adapter.journal == before + b + p + j;
    Regroup(before, b, p, j);
  }

  lemma Regroup(a: seq<Entry>, b: seq<Entry>, c: seq<Entry>, d: seq<Entry>)
    ensures a + b + c + d == a + ([] + b + c + d)
  {
  }

  function Recorded(entries: seq<Entry>, performed: seq<Entry>): (r: seq<Entry>)
    requires |performed| <= 1 && forall e :: e in performed ==> IsEffect(e)
    ensures Effects(r) == Effects(entries) + performed
  {
    if performed == [] then entries
    else
      assert (entries + performed)[..|entries|] == entries;
      entries + performed
  }

  lemma NoEffects(e: Entry)
    requires !IsEffect(e)
    ensures Effects([e]) == []
  {
    assert [e][..0] == [];
  }

  lemma FinishesDelivery(s: State, n: Node, repo: string)
    ensures var s' := FinishRepository(s, n, repo);
      if Without(s.pending, repo) != [] then s'.branch.None? && s'.pullRequest.None? && s'.jira.None?
      else s'.branch == s.branch && s'.pullRequest == s.pullRequest && s'.jira == s.jira
  {
    hide Without, FindTargetIndex;
  }

  /** The publication node computes the workflow's update, and the adapter does exactly the effects
      that update reports. */
  method PublishRemediationNode(s: State, x: Input, adapter: DeliveryAdapter) returns (s': State, entries: seq<Entry>)
    requires s.working.Some?
    modifies adapter
    ensures Publish(s, x) == Done(s', entries)
    ensures adapter.journal == old(adapter.journal) + Effects(entries)
    ensures var d := Deliver(s, s.working.value, x);
      if d.failure.None? && Without(s.pending, s.working.value) != [] then s'.branch.None? && s'.pullRequest.None? && s'.jira.None?
      else s'.branch == d.branch && s'.pullRequest == d.pullRequest && s'.jira == d.jira
  {
    hide Deliver, FinishRepository;
    var repo := s.working.value;
    var d := RunStages(s, repo, x, adapter);
    entries := d.entries;
    s' := s.(branch := d.branch, pullRequest := d.pullRequest, jira := d.jira);
    if d.failure.Some? {
      var code := BuildDeliveryErrorCode(d.branch, d.pullRequest, d.jira);
      s' := s'.(
        errors := s.errors + [WorkflowError(code, d.failure.value, s.working)],
        status := Failed,
        audit := s.audit + [AuditEvent(PublishRemediation, s.working, DecisionOf(s))]);
    } else {
      entries := entries + [RepoCompleted(repo)];
      NoEffects(RepoCompleted(repo));
      EffectsConcat(d.entries, [RepoCompleted(repo)]);
      FinishesDelivery(s', PublishRemediation, repo);
      s' := FinishRepository(s', PublishRemediation, repo);
    }
  }

  /** The code names the first stage that was not completed. */
  method BuildDeliveryErrorCode(branch: Option<string>, pullRequest: Option<string>, jira: Option<string>)
    returns (code: ErrorCode)
    ensures forall es, f :: code == DeliveryErrorCode(Delivery(branch, pullRequest, jira, es, f))
    ensures code.DeliveryBranchPublicationFailed? <==> branch.None?
    ensures code.DeliveryPullRequestFailed? <==> branch.Some? && pullRequest.None?
    ensures code.DeliveryJiraFailed? <==> branch.Some? && pullRequest.Some? && jira.None?
  {
    if branch.None? {
      return DeliveryBranchPublicationFailed;
    }
    if pullRequest.None? {
      return DeliveryPullRequestFailed;
    }
    if jira.None? {
      return DeliveryJiraFailed;
    }
    return DeliveryFailed;
  }

  /* ---------- One node execution ---------- */

  // Only the publication node has effects in the outside world.
  lemma OthersHaveNoEffects(env: Env, n: Node, s: State, x: Input)
    requires !n.PublishRemediation? && Exec(env, n, s, x).Done?
    ensures Effects(Exec(env, n, s, x).entries) == []
  {
    var entries := Exec(env, n, s, x).entries;
    EntriesOf(env, n, s, x);
    if |entries| == 1 {
      NoEffects(entries[0]);
      assert entries == [entries[0]];
    } else if |entries| == 2 {
      NoEffects(entries[0]);
      NoEffects(entries[1]);
      assert entries == [entries[0]] + [entries[1]];
      EffectsConcat([entries[0]], [entries[1]]);
    }
    hide Exec, IsEffect;
  }

  lemma EntriesOf(env: Env, n: Node, s: State, x: Input)
    requires !n.PublishRemediation? && Exec(env, n, s, x).Done?
    ensures var entries := Exec(env, n, s, x).entries; |entries| <= 2 && forall e :: e in entries ==> !IsEffect(e)
  {
    hide FinishRepository, CanRetry, Classify, PolicyUpdate, EvaluatePolicy, Noted;
  }

  /** Every node with steps of its own is executed by its method; the others only compute their update.
      The adapter does exactly the effects the execution reports. */
  method ExecuteNode(env: Env, n: Node, s: State, x: Input, adapter: DeliveryAdapter) returns (o: Outcome)
    modifies adapter
    ensures o == Exec(env, n, s, x)
    ensures adapter.journal == old(adapter.journal) + Effects(if o.Done? then o.entries else [])
  {
    if n.PublishRemediation? && s.working.Some? {
      var s', entries := PublishRemediationNode(s, x, adapter);
      return Done(s', entries);
    }
    hide Publish;
    ghost var result := Exec(env, n, s, x);
    if result.Done? && !n.PublishRemediation? {
      OthersHaveNoEffects(env, n, s, x);
    }
    o := ComputeNode(env, n, s, x);
  }

  method ComputeNode(env: Env, n: Node, s: State, x: Input) returns (o: Outcome)
    requires n.PublishRemediation? ==> s.working.None?
    ensures o == Exec(env, n, s, x)
  {
    ExecIs(env, n, s, x);
    hide *;
    if n.CheckRepositoryIdempotency? {
      var s' := CheckRepositoryIdempotencyNode(s, x);
      return Done(s', []);
    }
    if n.ApplyPolicy? {
      var s', entries := ApplyPolicyNode(env, s);
      return Done(s', entries);
    }
    if n.ReviewRemediationApproval? || n.ReviewDeliveryApproval? {
      var s', entries := ReviewApprovalNode(if n.ReviewDeliveryApproval? then DeliveryStage else RemediationStage, s);
      return Done(s', entries);
    }
    if n.HandleValidationFailure? && s.working.Some? && s.validations != [] {
      var s' := HandleValidationFailureNode(s);
      return Done(s', [RolledBack(s.working.value)]);
    }
    if n.ClassifyFailure? {
      var s' := ClassifyFailureNode(env, s);
      return Done(s', []);
    }
    return Exec(env, n, s, x);
  }

  // Which update the nodes with steps of their own compute, and what they put on the log.
  lemma ExecIs(env: Env, n: Node, s: State, x: Input)
    ensures n.CheckRepositoryIdempotency? ==> Exec(env, n, s, x) == CheckIdempotency(s, x) == Done(CheckIdempotency(s, x).state, [])
    ensures n.ApplyPolicy? ==> Exec(env, n, s, x) == ApplyPolicyUpdate(env, s)
    ensures n.ReviewRemediationApproval? ==> Exec(env, n, s, x) == Review(RemediationStage, s)
    ensures n.ReviewDeliveryApproval? ==> Exec(env, n, s, x) == Review(DeliveryStage, s)
    ensures n.HandleValidationFailure? ==> Exec(env, n, s, x) == HandleFailure(s)
    ensures n.ClassifyFailure? ==> Exec(env, n, s, x) == ClassifyUpdate(env, s)
    ensures s.working.Some? && s.validations != [] ==> HandleFailure(s) == Done(HandleFailure(s).state, [RolledBack(s.working.value)])
    ensures ClassifyUpdate(env, s) == Done(ClassifyUpdate(env, s).state, [])
  {
    hide EvaluatePolicy, ErrorOfResult, Classify, CanRetry, RetryNode, Review, PendingOf, SkippedOf, WorkspacesOf;
  }
}
