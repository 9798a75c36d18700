/**
 The composition theorem: the history of a run over a queue is the concatenation, in queue order, of
 the histories of runs over one repository each.
 */
module Composition {
  import opened Collections
  import opened Workflow
  import opened Invariant
  import opened Steps
  import opened Isolation

  // The start of a run over r alone.
  function SoloStart(vulnerability: Option<string>, repoMap: map<string, Workspace>, armed: bool, r: string): Config {
    Config(DetectMavenProfile, StartOf(vulnerability, repoMap, r), armed, None, [], [r], 0)
  }

  lemma SoloStartsAlike(env: Env, c: Config)
    requires Safe(env, c) && c.node.DetectMavenProfile?
    ensures var d := SoloStart(c.s.vulnerability, c.s.repoMap, c.armed, c.s.pending[0]);
      Safe(env, d) && Alike(c, d)
  {
    HeadKnown(env, c);
    StartsAfresh(env, c);
    hide Similar, Graft;
    var d := SoloStart(c.s.vulnerability, c.s.repoMap, c.armed, c.s.pending[0]);
    assert [] + Distinct(d.s.pending) == Distinct(d.queue);
  }

  // Each move is possible when its turn comes.
  predicate AllEnabled(env: Env, c: Config, moves: seq<Move>)
    decreases |moves|
  {
    moves == [] || (Enabled(c, moves[0]) && AllEnabled(env, Step(env, c, moves[0]), moves[1..]))
  }

  lemma {:induction false} SplitRun(env: Env, c: Config, moves: seq<Move>, k: nat)
    requires k <= |moves|
    ensures RunFrom(env, c, moves) == RunFrom(env, RunFrom(env, c, moves[..k]), moves[k..])
    ensures AllEnabled(env, c, moves) ==> AllEnabled(env, RunFrom(env, c, moves[..k]), moves[k..])
    decreases k
  {
    hide Step, Enabled;
    if k == 0 {
      assert moves[0..] == moves;
    } else {
      SplitRun(env, Step(env, c, moves[0]), moves[1..], k - 1);
      assert moves[1..][..k - 1] == moves[..k][1..];
      assert moves[1..][k - 1..] == moves[k..];
    }
  }

  // A run from start makes these moves, all enabled, and reaches d.
  predicate Plays(env: Env, start: Config, moves: seq<Move>, d: Config) {
    AllEnabled(env, start, moves) && d == RunFrom(env, start, moves)
  }

  predicate IsCompleted(c: Config) {
    c.node.End? && c.s.status.Completed?
  }

  // d, working on a single repository, keeps pace with c until c finishes that repository.
  ghost predicate Tracks(env: Env, c: Config, d: Config, c': Config, d': Config, es: seq<Entry>, done: bool) {
    && Safe(env, c') && c'.log == c.log + es && d'.log == d.log + es && c'.armed == d'.armed
    && c'.s.repoMap == c.s.repoMap && c'.s.vulnerability == c.s.vulnerability
    && if done then
         && c.s.pending != [] && c'.s.pending == Without(c.s.pending, c.s.pending[0])
         && c'.node == (if c'.s.pending != [] then DetectMavenProfile else End)
         && (c'.s.pending == [] ==> c'.s.status.Completed?)
         && IsCompleted(d')
       else
         && Safe(env, d') && Alike(c', d') && c'.s.pending == c.s.pending && d'.s.pending == d.s.pending
         && !IsCompleted(d')
  }

  lemma NotDone(env: Env, d: Config)
    requires Safe(env, d) && d.s.pending != []
    ensures !IsCompleted(d)
  {
    hide Frame, Active, AwaitingRemediation, AwaitingDelivery;
  }

  lemma TrackFinish(env: Env, c: Config, d: Config, x: Input)
    requires Safe(env, c) && Safe(env, d) && Alike(c, d) && |d.s.pending| == 1 && Runnable(c) && Finishes(c.node, c.s, x)
    ensures Runnable(d)
    ensures Tracks(env, c, d, TickMove(env, c, x), TickMove(env, d, x), Recorded(env, c, x), true)
  {
    FinishesAlike(env, c, d, x);
    FinishRecords(env, c, x);
    FinishRecords(env, d, x);
    TickRecords(env, c, x);
    FinishKeepsMap(env, c.node, c.s, x);
    assert d.s.pending == [d.s.pending[0]];
    assert Without(d.s.pending, d.s.pending[0]) == [];
    hide Safe, TickMove, Exec, Recorded, Alike, Route;
  }

  lemma TrackMove(env: Env, c: Config, d: Config, m: Move) returns (es: seq<Entry>, done: bool)
    requires Safe(env, c) && Safe(env, d) && Alike(c, d) && |d.s.pending| == 1 && Enabled(c, m)
    ensures Enabled(d, m) && Tracks(env, c, d, Step(env, c, m), Step(env, d, m), es, done)
  {
    hide Safe, TickMove, ResumeMove, Alike, Finishes, Recorded;
    match m {
      case Tick(x) =>
        es, done := Recorded(env, c, x), Finishes(c.node, c.s, x);
        if done {
          TrackFinish(env, c, d, x);
        } else {
          TickAlike(env, c, d, x);
          NotDone(env, TickMove(env, d, x));
          TicksTogether(env, c, d, x);
        }
      case Resume(decision) =>
        done := false;
        ResumeAlike(env, c, d, decision);
        var c', d' := ResumeMove(env, c, decision), ResumeMove(env, d, decision);
        es :| c'.log == c.log + es && d'.log == d.log + es;
        NotDone(env, d');
        AlikeArmed(c', d');
    }
  }

  lemma AlikeArmed(c: Config, d: Config)
    requires Alike(c, d)
    ensures c.armed == d.armed
  {
  }

  lemma TicksTogether(env: Env, c: Config, d: Config, x: Input)
    requires Alike(TickMove(env, c, x), TickMove(env, d, x))
    ensures TickMove(env, c, x).armed == TickMove(env, d, x).armed
  {
    AlikeArmed(TickMove(env, c, x), TickMove(env, d, x));
  }

  // The two runs together, until the first repository is finished or the moves run out.
  lemma {:induction false} TrackRun(env: Env, c: Config, d: Config, moves: seq<Move>)
    returns (k: nat, es: seq<Entry>, done: bool)
    requires Safe(env, c) && Safe(env, d) && Alike(c, d) && |d.s.pending| == 1 && AllEnabled(env, c, moves)
    ensures k <= |moves| && AllEnabled(env, d, moves[..k]) && (!done ==> k == |moves|) && (done ==> k > 0)
    ensures Tracks(env, c, d, RunFrom(env, c, moves[..k]), RunFrom(env, d, moves[..k]), es, done)
    decreases |moves|
  {
    hide Step, Enabled, Safe, Alike;
    if moves == [] {
      k, es, done := 0, [], false;
      NotDone(env, d);
      AlikeArmed(c, d);
    } else {
      var c1, d1 := Step(env, c, moves[0]), Step(env, d, moves[0]);
      es, done := TrackMove(env, c, d, moves[0]);
      if done {
        k := 1;
        assert moves[..1] == [moves[0]];
        OneMove(env, c, moves[0]);
        OneMove(env, d, moves[0]);
      } else {
        var es';
        k, es', done := TrackRun(env, c1, d1, moves[1..]);
        assert moves[..k + 1][1..] == moves[1..][..k];
        k, es := k + 1, es + es';
      }
    }
  }

  lemma OneMove(env: Env, c: Config, m: Move)
    ensures RunFrom(env, c, [m]) == Step(env, c, m)
    ensures Enabled(c, m) ==> AllEnabled(env, c, [m])
  {
    hide Step, Enabled;
    assert [m][1..] == [];
  }

  /* ---------- The theorem ---------- */

  // The moves and the entries split into one run a repository, in order: each completed but perhaps
  // the last, which e has reached just as a run over that repository alone would have.
  ghost predicate Composed(env: Env, vulnerability: Option<string>, repoMap: map<string, Workspace>, armed: bool,
    repos: seq<string>, moves: seq<Move>, entries: seq<Entry>, e: Config)
    decreases |repos|
  {
    if repos == [] then moves == [] && entries == [] && IsCompleted(e)
    else
      exists k: nat, d: Config | k <= |moves| ::
        && Plays(env, SoloStart(vulnerability, repoMap, armed, repos[0]), moves[..k], d)
        && d.log <= entries
        && if IsCompleted(d) then
             Composed(env, vulnerability, repoMap, d.armed, repos[1..], moves[k..], entries[|d.log|..], e)
           else k == |moves| && d.log == entries && Alike(e, d)
  }

  lemma EndedHasNoMoves(env: Env, c: Config, moves: seq<Move>)
    requires IsCompleted(c) && AllEnabled(env, c, moves)
    ensures moves == [] && RunFrom(env, c, moves) == c
  {
    hide Step;
  }

  // The part of the run that concerns the first repository, played alone as d, leaving the run at c1.
  lemma FirstRepository(env: Env, c: Config, moves: seq<Move>) returns (k: nat, d: Config, c1: Config)
    requires Safe(env, c) && c.node.DetectMavenProfile? && AllEnabled(env, c, moves)
    ensures k <= |moves| && c1 == RunFrom(env, c, moves[..k]) && c1.log == c.log + d.log
    ensures c.s.pending != [] && Plays(env, SoloStart(c.s.vulnerability, c.s.repoMap, c.armed, c.s.pending[0]), moves[..k], d)
    ensures RunFrom(env, c, moves) == RunFrom(env, c1, moves[k..]) && AllEnabled(env, c1, moves[k..])
    ensures !IsCompleted(d) ==> k == |moves| && Alike(c1, d)
    ensures IsCompleted(d) ==>
      && k > 0 && Safe(env, c1) && c1.armed == d.armed && c1.s.repoMap == c.s.repoMap && c1.s.vulnerability == c.s.vulnerability
      && c1.s.pending == Without(c.s.pending, c.s.pending[0])
      && if c1.s.pending != [] then c1.node.DetectMavenProfile? else IsCompleted(c1)
  {
    HeadKnown(env, c);
    SoloStartsAlike(env, c);
    hide Step, Enabled, Safe, Alike, RunFrom, AllEnabled;
    var start := SoloStart(c.s.vulnerability, c.s.repoMap, c.armed, c.s.pending[0]);
    var mine, done;
    k, mine, done := TrackRun(env, c, start, moves);
    c1, d := RunFrom(env, c, moves[..k]), RunFrom(env, start, moves[..k]);
    assert d.log == mine;
    SplitRun(env, c, moves, k);
  }

  /** Every run over a queue, from the first repository on, is the sequential composition of runs
      over one repository each, started from scratch, in queue order. */
  lemma {:induction false} SequentialComposition(env: Env, c: Config, moves: seq<Move>) returns (entries: seq<Entry>)
    requires Safe(env, c) && c.node.DetectMavenProfile? && AllEnabled(env, c, moves)
    ensures var e := RunFrom(env, c, moves);
      && e.log == c.log + entries
      && Composed(env, c.s.vulnerability, c.s.repoMap, c.armed, Distinct(c.s.pending), moves, entries, e)
    decreases |moves|
  {
    hide Step, Enabled, Safe, Alike, Composed, RunFrom, AllEnabled, SoloStart, Distinct, Without, Plays, IsCompleted;
    var k, d, c1 := FirstRepository(env, c, moves);
    DistinctTail(c.s.pending);
    var e := RunFrom(env, c, moves);
    if !IsCompleted(d) {
      entries := d.log;
      assert moves[..k] == moves;
      ComposedPartly(env, c, d, moves, entries, e);
    } else {
      var rest: seq<Entry>;
      if c1.s.pending == [] {
        rest := [];
        EndedHasNoMoves(env, c1, moves[k..]);
        ComposedOfNone(env, c.s.vulnerability, c.s.repoMap, d.armed, c1);
      } else {
        rest := SequentialComposition(env, c1, moves[k..]);
      }
      entries := d.log + rest;
      assert entries[|d.log|..] == rest;
      ComposedNext(env, c, d, moves, k, entries, e);
    }
  }

  lemma DistinctTail(s: seq<string>)
    requires s != []
    ensures Distinct(s)[1..] == Distinct(Without(s, s[0])) && Distinct(s)[0] == s[0]
    ensures Without(s, s[0]) == [] ==> Distinct(s)[1..] == []
  {
    assert Distinct(s) == [s[0]] + Distinct(Without(s[1..], s[0]));
  }

  lemma ComposedOfNone(env: Env, vulnerability: Option<string>, repoMap: map<string, Workspace>, armed: bool, e: Config)
    requires IsCompleted(e)
    ensures Composed(env, vulnerability, repoMap, armed, [], [], [], e)
  {
  }

  lemma ComposedPartly(env: Env, c: Config, d: Config, moves: seq<Move>, entries: seq<Entry>, e: Config)
    requires c.s.pending != [] && d.log == entries && !IsCompleted(d) && Alike(e, d)
    requires Plays(env, SoloStart(c.s.vulnerability, c.s.repoMap, c.armed, c.s.pending[0]), moves, d)
    ensures Composed(env, c.s.vulnerability, c.s.repoMap, c.armed, Distinct(c.s.pending), moves, entries, e)
  {
    hide Plays, Alike;
    assert moves[..|moves|] == moves;
    assert Plays(env, SoloStart(c.s.vulnerability, c.s.repoMap, c.armed, c.s.pending[0]), moves[..|moves|], d);
  }

  lemma ComposedNext(env: Env, c: Config, d: Config, moves: seq<Move>, k: nat, entries: seq<Entry>, e: Config)
    requires c.s.pending != [] && d.log <= entries && IsCompleted(d) && k <= |moves|
    requires Plays(env, SoloStart(c.s.vulnerability, c.s.repoMap, c.armed, c.s.pending[0]), moves[..k], d)
    requires Composed(env, c.s.vulnerability, c.s.repoMap, d.armed, Distinct(c.s.pending)[1..], moves[k..], entries[|d.log|..], e)
    ensures Composed(env, c.s.vulnerability, c.s.repoMap, c.armed, Distinct(c.s.pending), moves, entries, e)
  {
    hide Plays, Alike;
  }

  /** The same, for a run from the very start: whatever follows the first k moves, when these have
      brought the run to the next repository, is composed of single-repository runs. */
  lemma RunComposes(env: Env, moves: seq<Move>, k: nat) returns (entries: seq<Entry>)
    requires k <= |moves| && AllEnabled(env, Start, moves)
    requires RunFrom(env, Start, moves[..k]).node.DetectMavenProfile?
    ensures var c := RunFrom(env, Start, moves[..k]); var e := RunFrom(env, Start, moves);
      && e.log == c.log + entries
      && Composed(env, c.s.vulnerability, c.s.repoMap, c.armed, Distinct(c.s.pending), moves[k..], entries, e)
  {
    StartHolds(env);
    RunKeeps(env, Start, moves[..k]);
    SplitRun(env, Start, moves, k);
    hide Step, Enabled, Composed, RunFrom, AllEnabled, Distinct, Frame, AtNode;
    entries := SequentialComposition(env, RunFrom(env, Start, moves[..k]), moves[k..]);
  }
}
