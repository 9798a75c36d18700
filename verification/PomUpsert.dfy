/**
 Dependency updates in a POM (adapters/pom.py). A document is its dependency elements in document
 order, each marked when it belongs to the managed section; `managedEnd` is the place in that order
 where the managed section ends, or would be created.
 */
module PomUpsert {
  import opened Collections

  // Texts of the child elements, None where the element is missing.
  datatype Entry = Entry(group: Option<string>, artifact: Option<string>, version: Option<string>, managed: bool)

  datatype Change = Change(group: string, artifact: string, target: string, managed: bool)

  datatype Document = Document(entries: seq<Entry>, managedEnd: nat)

  datatype TargetError = DependencyNotFound

  predicate Valid(doc: Document) {
    doc.managedEnd <= |doc.entries|
  }

  predicate Names(c: Change, e: Entry) {
    e.group == Some(c.group) && e.artifact == Some(c.artifact)
  }

  // An override looks among the managed entries, a direct update among all entries with a version.
  predicate Wanted(c: Change, e: Entry) {
    Names(c, e) && if c.managed then e.managed else e.version.Some?
  }

  function FirstWanted(entries: seq<Entry>, c: Change, i: nat): (r: Option<nat>)
    requires i <= |entries|
    ensures r.Some? ==> i <= r.value < |entries| && Wanted(c, entries[r.value])
    ensures r.Some? ==> forall j :: i <= j < r.value ==> !Wanted(c, entries[j])
    ensures r.None? ==> forall j :: i <= j < |entries| ==> !Wanted(c, entries[j])
    decreases |entries| - i
  {
    if i == |entries| then None else if Wanted(c, entries[i]) then Some(i) else FirstWanted(entries, c, i + 1)
  }

  // The entry the change is about.
  function Hit(entries: seq<Entry>, c: Change): (r: Option<nat>)
    ensures r.Some? ==> r.value < |entries| && Wanted(c, entries[r.value])
    ensures r.Some? ==> forall j :: 0 <= j < r.value ==> !Wanted(c, entries[j])
    ensures r.None? ==> forall j :: 0 <= j < |entries| ==> !Wanted(c, entries[j])
  {
    FirstWanted(entries, c, 0)
  }

  function NewEntry(c: Change): Entry {
    Entry(Some(c.group), Some(c.artifact), Some(c.target), true)
  }

  function Applied(doc: Document, c: Change): (r: Result<Document, TargetError>)
    requires Valid(doc)
    ensures r.Ok? ==> Valid(r.value)
  {
    match Hit(doc.entries, c)
    case Some(i) => Ok(doc.(entries := doc.entries[i := doc.entries[i].(version := Some(c.target))]))
    case None =>
      if c.managed then
        Ok(Document(doc.entries[..doc.managedEnd] + [NewEntry(c)] + doc.entries[doc.managedEnd..], doc.managedEnd + 1))
      else Err(DependencyNotFound)
  }

  function PlanApplied(doc: Document, plan: seq<Change>): (r: Result<Document, TargetError>)
    requires Valid(doc)
    ensures r.Ok? ==> Valid(r.value)
  {
    if plan == [] then Ok(doc)
    else
      match PlanApplied(doc, plan[..|plan| - 1])
      case Err(error) => Err(error)
      case Ok(before) => Applied(before, Last(plan))
  }

  /* ---------- The operations ---------- */

  class PomDocument {
    var doc: Document

    constructor (doc: Document)
      ensures this.doc == doc
    {
      this.doc := doc;
    }

    method ApplyDirectDependencyUpdate(change: Change) returns (found: bool)
      requires Valid(doc) && !change.managed
      modifies this
      ensures found ==> Applied(old(doc), change) == Ok(doc)
      ensures !found ==> Applied(old(doc), change) == Err(DependencyNotFound) && doc == old(doc)
    {
      for i := 0 to |doc.entries|
        invariant doc == old(doc)
        invariant Hit(doc.entries, change) == FirstWanted(doc.entries, change, i)
      {
        var dependency := doc.entries[i];
        if dependency.version.Some? && dependency.group == Some(change.group) && dependency.artifact == Some(change.artifact) {
          doc := doc.(entries := doc.entries[i := dependency.(version := Some(change.target))]);
          return true;
        }
      }
      return false;
    }

    method ApplyDependencyManagementOverride(change: Change)
      requires Valid(doc) && change.managed
      modifies this
      ensures Applied(old(doc), change) == Ok(doc)
    {
      for i := 0 to |doc.entries|
        invariant doc == old(doc)
        invariant Hit(doc.entries, change) == FirstWanted(doc.entries, change, i)
      {
        var dependency := doc.entries[i];
        if dependency.managed && dependency.group == Some(change.group) && dependency.artifact == Some(change.artifact) {
          doc := doc.(entries := doc.entries[i := dependency.(version := Some(change.target))]);
          return;
        }
      }
      var at := doc.managedEnd;
      doc := Document(doc.entries[..at] + [NewEntry(change)] + doc.entries[at..], at + 1);
    }

    method ApplyPlan(plan: seq<Change>) returns (found: bool)
      requires Valid(doc)
      modifies this
      ensures found <==> PlanApplied(old(doc), plan).Ok?
      ensures found ==> PlanApplied(old(doc), plan) == Ok(doc)
    {
      for i := 0 to |plan|
        invariant PlanApplied(old(doc), plan[..i]) == Ok(doc)
      {
        assert plan[..i + 1][..i] == plan[..i];
        if plan[i].managed {
          ApplyDependencyManagementOverride(plan[i]);
        } else {
          var ok := ApplyDirectDependencyUpdate(plan[i]);
          if !ok {
            FailureStays(old(doc), plan, i + 1);
            return false;
          }
        }
      }
      assert plan[..|plan|] == plan;
      return true;
    }
  }

  lemma {:induction false} FailureStays(doc: Document, plan: seq<Change>, i: nat)
    requires Valid(doc) && i <= |plan| && PlanApplied(doc, plan[..i]).Err?
    ensures PlanApplied(doc, plan).Err?
  {
    if i == |plan| {
      assert plan[..i] == plan;
    } else {
      var front := plan[..|plan| - 1];
      assert front[..i] == plan[..i];
      FailureStays(doc, front, i);
    }
  }

  /* ---------- One change ---------- */

  /** A direct update succeeds exactly when some entry with a version has its group and artifact, and then
      only the version of the first such entry changes. */
  lemma DirectUpdateExactly(doc: Document, c: Change)
    requires Valid(doc) && !c.managed
    ensures Applied(doc, c).Ok? <==> exists e ::
      e in doc.entries && e.group == Some(c.group) && e.artifact == Some(c.artifact) && e.version.Some?
    ensures Applied(doc, c).Ok? ==> exists i ::
      && 0 <= i < |doc.entries|
      && doc.entries[i].group == Some(c.group) && doc.entries[i].artifact == Some(c.artifact) && doc.entries[i].version.Some?
      && (forall j :: 0 <= j < i ==>
            doc.entries[j].group != Some(c.group) || doc.entries[j].artifact != Some(c.artifact) || doc.entries[j].version.None?)
      && Applied(doc, c).value.entries == doc.entries[i := doc.entries[i].(version := Some(c.target))]
  {
    var hit := Hit(doc.entries, c);
    if hit.Some? {
      assert Wanted(c, doc.entries[hit.value]);
      assert forall j :: 0 <= j < hit.value ==> !Wanted(c, doc.entries[j]);
    } else {
      assert forall i :: 0 <= i < |doc.entries| ==> !Wanted(c, doc.entries[i]);
    }
  }

  // The i-th entry is the first managed one with the group and artifact of the change.
  predicate FirstManaged(entries: seq<Entry>, c: Change, i: int) {
    && 0 <= i < |entries|
    && entries[i].managed && entries[i].group == Some(c.group) && entries[i].artifact == Some(c.artifact)
    && forall j :: 0 <= j < i ==>
         !entries[j].managed || entries[j].group != Some(c.group) || entries[j].artifact != Some(c.artifact)
  }

  /** An override always succeeds: it gives the target version to the first managed entry with its group
      and artifact, or, when there is none, adds one at the end of the managed section; all other entries
      and their order stay. */
  lemma OverrideExactly(doc: Document, c: Change)
    requires Valid(doc) && c.managed
    ensures Applied(doc, c).Ok?
    ensures forall i :: FirstManaged(doc.entries, c, i) ==>
      Applied(doc, c).value == doc.(entries := doc.entries[i := doc.entries[i].(version := Some(c.target))])
    ensures (forall i :: !FirstManaged(doc.entries, c, i)) ==>
      var after := Applied(doc, c).value; var at := doc.managedEnd;
      && after.managedEnd == at + 1 && at < |after.entries|
      && after.entries[at] == Entry(Some(c.group), Some(c.artifact), Some(c.target), true)
      && after.entries[..at] == doc.entries[..at] && after.entries[at + 1..] == doc.entries[at..]
  {
    var hit := Hit(doc.entries, c);
    forall i
      ensures FirstManaged(doc.entries, c, i) <==> hit == Some(i)
    {
      if FirstManaged(doc.entries, c, i) {
        assert Wanted(c, doc.entries[i]);
      }
      if hit == Some(i) {
        assert forall j :: 0 <= j < i ==> !Wanted(c, doc.entries[j]);
      }
    }
    if hit.Some? {
      assert FirstManaged(doc.entries, c, hit.value);
    }
  }

  // A change that was applied is about the entry it wrote.
  lemma AppliedHits(doc: Document, c: Change)
    requires Valid(doc) && Applied(doc, c).Ok?
    ensures var after := Applied(doc, c).value.entries;
      && Hit(after, c) == Some(if Hit(doc.entries, c).Some? then Hit(doc.entries, c).value else doc.managedEnd)
      && after[Hit(after, c).value].version == Some(c.target)
  {
    var after := Applied(doc, c).value.entries;
    var h := if Hit(doc.entries, c).Some? then Hit(doc.entries, c).value else doc.managedEnd;
    assert Wanted(c, after[h]);
    assert forall j :: 0 <= j < h ==> after[j] == doc.entries[j];
    assert forall j :: 0 <= j < h ==> !Wanted(c, after[j]);
  }

  /* ---------- A whole plan ---------- */

  // The change is the last one of the plan about its entry.
  predicate LastAbout(entries: seq<Entry>, plan: seq<Change>, m: nat)
    requires m < |plan|
  {
    forall n :: m < n < |plan| ==> Hit(entries, plan[n]) != Hit(entries, plan[m])
  }

  // Every change is about some entry, and every entry carries what the last change about it wrote.
  predicate Settled(entries: seq<Entry>, plan: seq<Change>) {
    && (forall m :: 0 <= m < |plan| ==> Hit(entries, plan[m]).Some?)
    && forall m :: 0 <= m < |plan| && LastAbout(entries, plan, m) ==>
         entries[Hit(entries, plan[m]).value].version == Some(plan[m].target)
  }

  // Where an entry of the new document stood before the change, the one it wrote aside.
  function Before(doc: Document, c: Change, i: nat): nat
    requires Valid(doc)
  {
    if Hit(doc.entries, c).None? && i > doc.managedEnd then i - 1 else i
  }

  // Entries the change did not write are what they were.
  lemma OthersUnchanged(doc: Document, c: Change, i: nat)
    requires Valid(doc) && Applied(doc, c).Ok?
    requires i < |Applied(doc, c).value.entries| && Hit(Applied(doc, c).value.entries, c) != Some(i)
    ensures Before(doc, c, i) < |doc.entries| && Applied(doc, c).value.entries[i] == doc.entries[Before(doc, c, i)]
  {
    AppliedHits(doc, c);
  }

  // A later reading of another change: it is about the same entry as before, or now about the one
  // just written; and it is not about a third one.
  lemma HitAfter(doc: Document, c: Change, e: Change, i: nat)
    requires Valid(doc) && Applied(doc, c).Ok?
    requires var after := Applied(doc, c).value.entries; i < |after| && Hit(after, c) != Some(i) && Hit(after, e) == Some(i)
    ensures Hit(doc.entries, e) == Some(Before(doc, c, i))
  {
    var after := Applied(doc, c).value.entries;
    AppliedHits(doc, c);
    OthersUnchanged(doc, c, i);
    var b := Before(doc, c, i);
    assert Wanted(e, doc.entries[b]);
    var h := Hit(after, c).value;
    forall j | 0 <= j < b
      ensures !Wanted(e, doc.entries[j])
    {
      if Hit(doc.entries, c) == Some(j) {
        assert !Wanted(e, after[j]);
      } else if Hit(doc.entries, c).None? && j >= doc.managedEnd {
        assert after[j + 1] == doc.entries[j];
      } else {
        assert after[j] == doc.entries[j];
      }
    }
  }

  // Two changes about one entry that was not written stay together.
  lemma HitTogether(doc: Document, c: Change, e: Change, other: Change, i: nat)
    requires Valid(doc) && Applied(doc, c).Ok?
    requires var after := Applied(doc, c).value.entries; i < |after| && Hit(after, c) != Some(i) && Hit(after, e) == Some(i)
    requires Hit(doc.entries, other) == Some(Before(doc, c, i))
    ensures Hit(Applied(doc, c).value.entries, other) == Some(i)
  {
    var after := Applied(doc, c).value.entries;
    AppliedHits(doc, c);
    OthersUnchanged(doc, c, i);
    HitAfter(doc, c, e, i);
    var h := Hit(after, c).value;
    forall j | 0 <= j < i
      ensures !Wanted(other, after[j])
    {
      if j == h {
        if Wanted(other, after[h]) {
          assert !Wanted(e, after[h]) && Names(e, after[h]) && Names(c, after[h]);
          assert Hit(doc.entries, c) == Some(h) && Wanted(other, doc.entries[h]);
        }
      } else {
        OthersUnchanged(doc, c, j);
      }
    }
    assert Wanted(other, after[i]);
  }

  lemma HitSurvives(doc: Document, c: Change, e: Change)
    requires Valid(doc) && Applied(doc, c).Ok? && Hit(doc.entries, e).Some?
    ensures Hit(Applied(doc, c).value.entries, e).Some?
  {
    var after := Applied(doc, c).value.entries;
    var b := Hit(doc.entries, e).value;
    var i := if Hit(doc.entries, c).None? && b >= doc.managedEnd then b + 1 else b;
    assert Wanted(e, after[i]);
  }

  lemma SettledStep(doc: Document, front: seq<Change>, c: Change)
    requires Valid(doc) && Applied(doc, c).Ok? && Settled(doc.entries, front)
    ensures Settled(Applied(doc, c).value.entries, front + [c])
  {
    var after, plan := Applied(doc, c).value.entries, front + [c];
    AppliedHits(doc, c);
    hide Applied, Hit, Wanted;
    forall m | 0 <= m < |plan|
      ensures Hit(after, plan[m]).Some?
    {
      if m < |front| {
        HitSurvives(doc, c, front[m]);
      }
    }
    forall m | 0 <= m < |plan| && LastAbout(after, plan, m)
      ensures after[Hit(after, plan[m]).value].version == Some(plan[m].target)
    {
      if m < |front| {
        assert Hit(after, plan[|front|]) != Hit(after, plan[m]);
        SettledOther(doc, front, c, m);
      }
    }
  }

  lemma SettledOther(doc: Document, front: seq<Change>, c: Change, m: nat)
    requires Valid(doc) && Applied(doc, c).Ok? && Settled(doc.entries, front)
    requires m < |front| && LastAbout(Applied(doc, c).value.entries, front + [c], m)
    requires Hit(Applied(doc, c).value.entries, front[m]).Some?
    ensures var after := Applied(doc, c).value.entries;
      after[Hit(after, front[m]).value].version == Some(front[m].target)
  {
    var after, plan := Applied(doc, c).value.entries, front + [c];
    var i := Hit(after, front[m]).value;
    assert plan[|front|] == c && plan[m] == front[m];
    hide Applied, Hit, Wanted;
    HitAfter(doc, c, front[m], i);
    OthersUnchanged(doc, c, i);
    forall n | m < n < |front|
      ensures Hit(doc.entries, front[n]) != Hit(doc.entries, front[m])
    {
      assert plan[n] == front[n];
      if Hit(doc.entries, front[n]) == Hit(doc.entries, front[m]) {
        HitTogether(doc, c, front[m], front[n], i);
      }
    }
    assert LastAbout(doc.entries, front, m);
  }

  lemma {:induction false} PlanSettles(doc: Document, plan: seq<Change>)
    requires Valid(doc) && PlanApplied(doc, plan).Ok?
    ensures Settled(PlanApplied(doc, plan).value.entries, plan)
  {
    if plan != [] {
      var front := plan[..|plan| - 1];
      PlanSettles(doc, front);
      SettledStep(PlanApplied(doc, front).value, front, Last(plan));
      assert front + [Last(plan)] == plan;
      hide Settled, Applied;
    }
  }

  // The same entries, some carrying another version.
  predicate SameSkeleton(one: seq<Entry>, two: seq<Entry>) {
    |one| == |two| && forall i :: 0 <= i < |one| ==>
      one[i].(version := None) == two[i].(version := None) && one[i].version.Some? == two[i].version.Some?
  }

  lemma SkeletonDecidesHit(one: seq<Entry>, two: seq<Entry>, c: Change)
    requires SameSkeleton(one, two)
    ensures Hit(one, c) == Hit(two, c)
  {
    assert forall i :: 0 <= i < |one| ==> (Wanted(c, one[i]) <==> Wanted(c, two[i]));
    if Hit(one, c).Some? && Hit(two, c).Some? {
      assert Hit(one, c).value <= Hit(two, c).value && Hit(two, c).value <= Hit(one, c).value;
    }
  }

  // Some change from the k-th on is about entry i.
  predicate WrittenFrom(entries: seq<Entry>, plan: seq<Change>, k: nat, i: int) {
    exists m :: k <= m < |plan| && Hit(entries, plan[m]) == Some(i)
  }

  // While a settled plan is applied again, only entries it still writes may differ.
  predicate Pending(doc: Document, now: Document, plan: seq<Change>, k: nat) {
    && now.managedEnd == doc.managedEnd && SameSkeleton(now.entries, doc.entries)
    && forall i :: 0 <= i < |doc.entries| && now.entries[i] != doc.entries[i] ==> WrittenFrom(doc.entries, plan, k, i)
  }

  lemma {:induction false} Reapplied(doc: Document, plan: seq<Change>, k: nat)
    requires Valid(doc) && Settled(doc.entries, plan) && k <= |plan|
    ensures PlanApplied(doc, plan[..k]).Ok? && Pending(doc, PlanApplied(doc, plan[..k]).value, plan, k)
  {
    if k == 0 {
      assert plan[..0] == [];
    } else {
      Reapplied(doc, plan, k - 1);
      assert plan[..k][..k - 1] == plan[..k - 1] && Last(plan[..k]) == plan[k - 1];
      ReappliedStep(doc, PlanApplied(doc, plan[..k - 1]).value, plan, k - 1);
      hide Settled, Pending, Applied;
    }
  }

  lemma ReappliedStep(doc: Document, now: Document, plan: seq<Change>, k: nat)
    requires Valid(doc) && Valid(now) && Settled(doc.entries, plan) && k < |plan| && Pending(doc, now, plan, k)
    ensures Applied(now, plan[k]).Ok? && Pending(doc, Applied(now, plan[k]).value, plan, k + 1)
  {
    SkeletonDecidesHit(now.entries, doc.entries, plan[k]);
    var h := Hit(doc.entries, plan[k]).value;
    var next := Applied(now, plan[k]).value;
    assert next == now.(entries := now.entries[h := now.entries[h].(version := Some(plan[k].target))]);
    WrittenHasVersion(doc.entries, plan, k);
    forall i | 0 <= i < |doc.entries| && next.entries[i] != doc.entries[i]
      ensures WrittenFrom(doc.entries, plan, k + 1, i)
    {
      StillPending(doc, now, plan, k, i);
    }
    hide Applied, Hit, Settled, WrittenFrom, Wanted;
  }

  lemma {:induction false} WrittenHasVersion(entries: seq<Entry>, plan: seq<Change>, k: nat)
    requires Settled(entries, plan) && k < |plan|
    ensures entries[Hit(entries, plan[k]).value].version.Some?
    decreases |plan| - k
  {
    if !LastAbout(entries, plan, k) {
      var n :| k < n < |plan| && Hit(entries, plan[n]) == Hit(entries, plan[k]);
      WrittenHasVersion(entries, plan, n);
    }
  }

  lemma StillPending(doc: Document, now: Document, plan: seq<Change>, k: nat, i: nat)
    requires Settled(doc.entries, plan) && k < |plan| && Pending(doc, now, plan, k) && i < |doc.entries|
    requires if Hit(doc.entries, plan[k]) == Some(i) then doc.entries[i].version != Some(plan[k].target)
             else now.entries[i] != doc.entries[i]
    ensures WrittenFrom(doc.entries, plan, k + 1, i)
  {
    if Hit(doc.entries, plan[k]) == Some(i) {
      assert !LastAbout(doc.entries, plan, k);
    } else {
      var m :| k <= m < |plan| && Hit(doc.entries, plan[m]) == Some(i);
      assert m != k;
    }
  }

  /** A plan that went through goes through again and changes nothing, whatever direct updates and
      overrides it mixes and however often it names the same dependency. */
  lemma PlanIsIdempotent(doc: Document, plan: seq<Change>)
    requires Valid(doc) && PlanApplied(doc, plan).Ok?
    ensures PlanApplied(PlanApplied(doc, plan).value, plan) == PlanApplied(doc, plan)
  {
    var once := PlanApplied(doc, plan).value;
    PlanSettles(doc, plan);
    Reapplied(once, plan, |plan|);
    assert plan[..|plan|] == plan;
    var twice := PlanApplied(once, plan).value;
    assert forall i :: 0 <= i < |once.entries| ==> twice.entries[i] == once.entries[i];
    assert twice.entries == once.entries;
  }
}
