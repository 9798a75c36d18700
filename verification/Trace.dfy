/**
 What a safe history looks like, stated on the log alone: every entry is justified by the entries
 before it. This is the reference the workflow is proved against; it mentions no state field.
 */
module Trace {
  import opened Collections
  import opened Workflow

  // The latest policy decision for a repository.
  function PolicyOf(log: seq<Entry>, r: string): Option<PolicyDecision> {
    if log == [] then None
    else
      match Last(log)
      case PolicyDecided(r', d) => if r' == r then Some(d) else PolicyOf(log[..|log| - 1], r)
      case _ => PolicyOf(log[..|log| - 1], r)
  }

  // The latest validation verdict for a repository: did it fail?
  function VerdictOf(log: seq<Entry>, r: string): Option<bool> {
    if log == [] then None
    else
      match Last(log)
      case Validated(r', failed) => if r' == r then Some(failed) else VerdictOf(log[..|log| - 1], r)
      case _ => VerdictOf(log[..|log| - 1], r)
  }

  predicate OpenedPullRequest(log: seq<Entry>, r: string) {
    || PullRequestOpened(r, AdapterDefault) in log
    || PullRequestOpened(r, AsDraft) in log
    || PullRequestOpened(r, ReadyForReview) in log
  }

  predicate RanLane(log: seq<Entry>, r: string) {
    || LaneRun(r, SimpleUpdate) in log
    || LaneRun(r, TransitiveOverride) in log
    || LaneRun(r, ComplexRefactor) in log
    || LaneRun(r, UnknownRoute) in log
  }

  // A lane has edited the workspace of this repository, and no rollback came after it.
  predicate Dirty(log: seq<Entry>, r: string) {
    && log != []
    && Last(log) != RolledBack(r)
    && ((Last(log).LaneRun? && Last(log).repo == r) || Dirty(log[..|log| - 1], r))
  }

  lemma {:induction false} NotRunNotDirty(log: seq<Entry>, r: string)
    requires !RanLane(log, r)
    ensures !Dirty(log, r)
  {
    if log != [] {
      assert Last(log) in log && (forall e :: e in log[..|log| - 1] ==> e in log);
      NoLane(log, r, Last(log));
      NotRunNotDirty(log[..|log| - 1], r);
    }
  }

  lemma NoLane(log: seq<Entry>, r: string, e: Entry)
    requires !RanLane(log, r) && e in log
    ensures !(e.LaneRun? && e.repo == r)
  {
    if e.LaneRun? && e.repo == r {
      assert e == LaneRun(r, e.strategy);
      match e.strategy
      case SimpleUpdate => assert false;
      case TransitiveOverride => assert false;
      case ComplexRefactor => assert false;
      case UnknownRoute => assert false;
    }
  }

  lemma DirtyAppended(log: seq<Entry>, e: Entry, r: string)
    ensures Dirty(log + [e], r) <==> e != RolledBack(r) && ((e.LaneRun? && e.repo == r) || Dirty(log, r))
  {
    assert (log + [e])[..|log|] == log;
  }

  // Policy let this repository through, and a human did too where policy asked for one.
  predicate Permitted(log: seq<Entry>, r: string) {
    var p := PolicyOf(log, r);
    p.Some? && p.value.allowed && (p.value.requiresApproval ==> Granted(r, RemediationStage) in log)
  }

  // Publication may run: the latest validation is not failed, and delivery is approved where policy asks for it.
  predicate Publishable(log: seq<Entry>, r: string) {
    && Permitted(log, r)
    && VerdictOf(log, r) == Some(false)
    && (PolicyOf(log, r).value.requiresDelivery ==> Granted(r, DeliveryStage) in log)
  }

  predicate Allowed(env: Env, log: seq<Entry>, e: Entry) {
    && RepoCompleted(e.repo) !in log
    && match e
       case PolicyDecided(r, _) => PolicyOf(log, r).None?
       case Granted(r, stage) =>
         && PolicyOf(log, r).Some? && PolicyOf(log, r).value.allowed
         && Granted(r, stage) !in log
         && (stage.RemediationStage? ==> PolicyOf(log, r).value.requiresApproval && !RanLane(log, r))
         && (stage.DeliveryStage? ==>
               PolicyOf(log, r).value.requiresDelivery && Permitted(log, r) && VerdictOf(log, r) == Some(false))
       case LanePlanned(r) =>
         && Permitted(log, r)
         && Granted(r, RemediationStage) in log
         && VerdictOf(log, r) != Some(false) && PublishRun(r) !in log && !Dirty(log, r)
       case LaneRun(r, strategy) =>
         && Permitted(log, r)
         && !Dirty(log, r)
         && !strategy.UnknownRoute?
         && (strategy.ComplexRefactor? ==> Granted(r, RemediationStage) in log)
         && VerdictOf(log, r) != Some(false)
         && PublishRun(r) !in log
         && (VerdictOf(log, r).Some? ==> RolledBack(r) in log)
       case Validated(r, _) => RanLane(log, r) && PublishRun(r) !in log
       case RolledBack(r) => VerdictOf(log, r) == Some(true)
       case PublishRun(r) => !env.dryRun && Publishable(log, r)
       case BranchPublished(r) => PublishRun(r) in log && BranchPublished(r) !in log
       case PullRequestOpened(r, draft) =>
         && PublishRun(r) in log && BranchPublished(r) in log && !OpenedPullRequest(log, r)
         && draft == (if PolicyOf(log, r).Some? && PolicyOf(log, r).value.requiresDelivery then ReadyForReview else AdapterDefault)
       case JiraCompleted(r) => PublishRun(r) in log && OpenedPullRequest(log, r) && JiraCompleted(r) !in log
       case DryRunSkipped(r) => env.dryRun && Permitted(log, r) && VerdictOf(log, r) == Some(false)
       case RepoCompleted(r) => if env.dryRun then DryRunSkipped(r) in log else JiraCompleted(r) in log
  }

  ghost predicate Justified(env: Env, log: seq<Entry>) {
    forall i {:trigger Allowed(env, log[..i], log[i])} :: 0 <= i < |log| ==> Allowed(env, log[..i], log[i])
  }

  lemma JustifiedAppend(env: Env, log: seq<Entry>, e: Entry)
    requires Justified(env, log) && Allowed(env, log, e)
    ensures Justified(env, log + [e])
  {
    var log' := log + [e];
    forall i | 0 <= i < |log'|
      ensures Allowed(env, log'[..i], log'[i])
    {
      if i < |log| {
        assert log'[..i] == log[..i];
      } else {
        assert log'[..i] == log;
      }
    }
  }

  // A repository the log does not mention has no facts in it.
  lemma {:induction false} Unmentioned(log: seq<Entry>, r: string)
    requires forall e :: e in log ==> e.repo != r
    ensures PolicyOf(log, r) == None && VerdictOf(log, r) == None
  {
    if log != [] {
      assert Last(log) in log;
      Unmentioned(log[..|log| - 1], r);
    }
  }

  /* ---------- What justification means over a whole history ---------- */

  // What a publication does in the outside world.
  predicate IsEffect(e: Entry) {
    e.BranchPublished? || e.PullRequestOpened? || e.JiraCompleted?
  }

  function Effects(log: seq<Entry>): seq<Entry> {
    if log == [] then []
    else Effects(log[..|log| - 1]) + (if IsEffect(Last(log)) then [Last(log)] else [])
  }

  lemma {:induction false} EffectsConcat(a: seq<Entry>, b: seq<Entry>)
    ensures Effects(a + b) == Effects(a) + Effects(b)
  {
    if b == [] {
      assert a + b == a;
    } else {
      assert (a + b)[..|a + b| - 1] == a + b[..|b| - 1];
      EffectsConcat(a, b[..|b| - 1]);
    }
  }

  // Where each effect stands in the log.
  lemma {:induction false} EffectsStand(log: seq<Entry>) returns (at: seq<nat>)
    ensures |at| == |Effects(log)|
    ensures forall i :: 0 <= i < |at| ==> at[i] < |log| && log[at[i]] == Effects(log)[i]
    ensures forall i, j :: 0 <= i < j < |at| ==> at[i] < at[j]
  {
    at := [];
    if log != [] {
      var before := log[..|log| - 1];
      at := EffectsStand(before);
      hide IsEffect;
      assert forall i :: 0 <= i < |at| ==> log[at[i]] == before[at[i]];
      if IsEffect(Last(log)) {
        at := at + [|log| - 1];
      }
    }
  }

  predicate SameEffect(e: Entry, f: Entry) {
    && e.repo == f.repo
    && ((e.BranchPublished? && f.BranchPublished?) || (e.PullRequestOpened? && f.PullRequestOpened?)
        || (e.JiraCompleted? && f.JiraCompleted?) || (e.RepoCompleted? && f.RepoCompleted?))
  }

  /** No external effect happens twice for a repository. */
  lemma AtMostOnce(env: Env, log: seq<Entry>, i: nat, j: nat)
    requires Justified(env, log) && i < j < |log|
    ensures !SameEffect(log[i], log[j])
  {
    assert Allowed(env, log[..j], log[j]);
    assert Allowed(env, log[..i], log[i]);
    assert log[..j][i] == log[i];
    assert log[i] in log[..j];
    assert log[i].PullRequestOpened? ==> OpenedPullRequest(log[..j], log[i].repo) by {
      if log[i].PullRequestOpened? {
        assert log[i] == PullRequestOpened(log[i].repo, log[i].draft);
      }
    }
  }

  lemma EffectsOnce(env: Env, log: seq<Entry>, i: nat, j: nat)
    requires Justified(env, log) && i < j < |Effects(log)|
    ensures !SameEffect(Effects(log)[i], Effects(log)[j])
  {
    var at := EffectsStand(log);
    AtMostOnce(env, log, at[i], at[j]);
    hide Justified;
  }

  // Where the entry e, which prefix log[..k] contains, stands.
  ghost function IndexIn(log: seq<Entry>, k: nat, e: Entry): (i: nat)
    requires k <= |log| && e in log[..k]
    ensures i < k && log[i] == e
  {
    var i :| 0 <= i < k && log[..k][i] == e;
    i
  }

  /** A completed repository went through, in this order: a passing verdict, a branch, a pull
      request, a Jira completion. */
  lemma CompletionIsOrdered(env: Env, log: seq<Entry>, k: nat) returns (b: nat, p: nat, j: nat)
    requires Justified(env, log) && k < |log| && log[k].RepoCompleted? && !env.dryRun
    ensures b < p < j < k
    ensures log[b] == BranchPublished(log[k].repo)
    ensures log[p].PullRequestOpened? && log[p].repo == log[k].repo
    ensures log[j] == JiraCompleted(log[k].repo)
  {
    var r := log[k].repo;
    assert Allowed(env, log[..k], log[k]);
    j := IndexIn(log, k, JiraCompleted(r));
    assert Allowed(env, log[..j], log[j]);
    var pr :=
      if PullRequestOpened(r, AdapterDefault) in log[..j] then PullRequestOpened(r, AdapterDefault)
      else if PullRequestOpened(r, AsDraft) in log[..j] then PullRequestOpened(r, AsDraft)
      else PullRequestOpened(r, ReadyForReview);
    p := IndexIn(log, j, pr);
    assert Allowed(env, log[..p], log[p]);
    b := IndexIn(log, p, BranchPublished(r));
  }

  /** Nothing is ever published in a dry run. */
  lemma PublishingIsLive(env: Env, log: seq<Entry>, k: nat)
    requires Justified(env, log) && k < |log|
    requires var e := log[k]; e.PublishRun? || e.BranchPublished? || e.PullRequestOpened? || e.JiraCompleted?
    ensures !env.dryRun
  {
    assert Allowed(env, log[..k], log[k]);
    var i := if log[k].PublishRun? then k else IndexIn(log, k, PublishRun(log[k].repo));
    assert Allowed(env, log[..i], log[i]);
  }

  /** Once a repository is completed, the log never mentions it again. */
  lemma CompletedIsFinal(env: Env, log: seq<Entry>, i: nat, j: nat)
    requires Justified(env, log) && i < j < |log| && log[i].RepoCompleted?
    ensures log[j].repo != log[i].repo
  {
    assert Allowed(env, log[..j], log[j]);
    assert log[..j][i] == log[i];
  }
}
