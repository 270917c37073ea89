/**
 * Task-graph assembly (src/tasks/all.ts): every quest's tasks are flattened into
 * one list, task names and same-quest dependencies are qualified with the quest
 * name, and a dependency that names no task aborts the build.
 *
 * The source rewrites the shared task objects in place, so a task is a class here
 * and `AllTasks` is a method over those objects. It is proved against `BuildGraph`,
 * a function over value snapshots of the quests, about which the lemmas speak.
 */
module TaskGraph {
  import opened Wrappers

  /** A task object as a quest file declares it; only `name` and `after` matter here. */
  class Task {
    var name: string
    var after: seq<string>

    constructor (name: string, after: seq<string>)
      ensures this.name == name && this.after == after
    {
      this.name := name;
      this.after := after;
    }
  }

  datatype Quest = Quest(name: string, tasks: seq<Task>)

  /** The value of a task object at one moment. */
  datatype TaskSpec = TaskSpec(name: string, after: seq<string>)

  datatype QuestSpec = QuestSpec(name: string, tasks: seq<TaskSpec>)

  // ---------------------------------------------------------------------------
  // Qualification of names and dependencies

  function QualifyName(quest: string, local: string): string
  {
    quest + "/" + local
  }

  /** A dependency that already names its quest is kept; any other gets the owner's prefix. */
  function QualifyDep(quest: string, dep: string): string
  {
    if '/' in dep then dep else QualifyName(quest, dep)
  }

  function QualifyDeps(quest: string, deps: seq<string>): seq<string>
  {
    seq(|deps|, k requires 0 <= k < |deps| => QualifyDep(quest, deps[k]))
  }

  function QualifyTask(quest: string, t: TaskSpec): TaskSpec
  {
    TaskSpec(QualifyName(quest, t.name), QualifyDeps(quest, t.after))
  }

  /** The quests as they are after one pass of the rewrite loop. */
  function QualifyQuests(qs: seq<QuestSpec>): seq<QuestSpec>
  {
    seq(|qs|, i requires 0 <= i < |qs| =>
      QuestSpec(qs[i].name,
        seq(|qs[i].tasks|, j requires 0 <= j < |qs[i].tasks| => QualifyTask(qs[i].name, qs[i].tasks[j]))))
  }

  function FlattenSpecs(qs: seq<QuestSpec>): seq<TaskSpec>
  {
    if qs == [] then [] else qs[0].tasks + FlattenSpecs(qs[1..])
  }

  function TotalTasks(qs: seq<QuestSpec>): nat
  {
    if qs == [] then 0 else |qs[0].tasks| + TotalTasks(qs[1..])
  }

  /** The task list the rewrite loop pushes, in quest order and declaration order. */
  function QualifyAll(qs: seq<QuestSpec>): seq<TaskSpec>
  {
    FlattenSpecs(QualifyQuests(qs))
  }

  // ---------------------------------------------------------------------------
  // Dependency check

  function Names(ts: seq<TaskSpec>): set<string>
  {
    set k | 0 <= k < |ts| :: ts[k].name
  }

  /** The first dependency, in list order, that is not a known name. */
  function FirstMissing(deps: seq<string>, names: set<string>): Option<string>
  {
    if deps == [] then None
    else if deps[0] !in names then Some(deps[0])
    else FirstMissing(deps[1..], names)
  }

  /** The first unknown dependency in task order, with the name of the task that has it. */
  function FirstDangling(ts: seq<TaskSpec>, names: set<string>): Option<(string, string)>
  {
    if ts == [] then None
    else match FirstMissing(ts[0].after, names)
      case Some(dep) => Some((dep, ts[0].name))
      case None => FirstDangling(ts[1..], names)
  }

  function UnknownDependency(dep: string, task: string): string
  {
    "Unknown task dependency " + dep + " of " + task
  }

  /** The message thrown for the first unknown dependency of a task list, if any. */
  function DependencyError(ts: seq<TaskSpec>): Option<string>
  {
    match FirstDangling(ts, Names(ts))
    case None => None
    case Some((dep, task)) => Some(UnknownDependency(dep, task))
  }

  /** The value-level meaning of `all_tasks`: the qualified list, or the error it throws. */
  function BuildGraph(qs: seq<QuestSpec>): Result<seq<TaskSpec>, string>
  {
    var ts := QualifyAll(qs);
    match DependencyError(ts)
    case None => Success(ts)
    case Some(e) => Failure(e)
  }

  /** Every dependency of every task names some task of the list. */
  ghost predicate AllResolved(ts: seq<TaskSpec>)
  {
    forall k, m :: 0 <= k < |ts| && 0 <= m < |ts[k].after| ==> ts[k].after[m] in Names(ts)
  }

  // ---------------------------------------------------------------------------
  // The task objects

  function Flatten(qs: seq<Quest>): seq<Task>
  {
    if qs == [] then [] else qs[0].tasks + Flatten(qs[1..])
  }

  ghost function Objects(qs: seq<Quest>): set<Task>
  {
    set a, b | 0 <= a < |qs| && 0 <= b < |qs[a].tasks| :: qs[a].tasks[b]
  }

  function SnapTask(t: Task): TaskSpec
    reads t
  {
    TaskSpec(t.name, t.after)
  }

  function SnapTasks(ts: seq<Task>): seq<TaskSpec>
    reads set t | t in ts
  {
    seq(|ts|, k requires 0 <= k < |ts| reads set t | t in ts => SnapTask(ts[k]))
  }

  ghost function Snapshot(qs: seq<Quest>): seq<QuestSpec>
    reads Objects(qs)
  {
    seq(|qs|, i requires 0 <= i < |qs| reads Objects(qs) => QuestSpec(qs[i].name, SnapTasks(qs[i].tasks)))
  }

  /** No task object is listed twice (each quest file declares its own object literals). */
  ghost predicate DistinctTasks(qs: seq<Quest>)
  {
    forall a, b, c, d ::
      (0 <= a < |qs| && 0 <= b < |qs[a].tasks| && 0 <= c < |qs| && 0 <= d < |qs[c].tasks| &&
       (a != c || b != d)) ==> qs[a].tasks[b] != qs[c].tasks[d]
  }

  /**
   * all_tasks: rewrites every task object's name and dependencies in place, pushes the
   * objects in order, then checks that every dependency names a task of the result.
   */
  method AllTasks(quests: seq<Quest>) returns (r: Result<seq<Task>, string>)
    requires DistinctTasks(quests)
    modifies Objects(quests)
    ensures Snapshot(quests) == QualifyQuests(old(Snapshot(quests)))
    ensures r.Success? ==> r.value == Flatten(quests) && BuildGraph(old(Snapshot(quests))) == Success(SnapTasks(r.value))
    ensures r.Failure? ==> BuildGraph(old(Snapshot(quests))) == Failure(r.error)
  {
    ghost var before := Snapshot(quests);
    var result := RewriteQuests(quests);
    SnapshotAfter(quests, before);
    SnapFlatten(quests);
    assert SnapTasks(result) == QualifyAll(before);
    var error := CheckDependencies(result);
    r := if error.Some? then Failure(error.value) else Success(result);
  }

  /** The rewriting half of all_tasks: each quest's task objects are rewritten and pushed, quest by quest. */
  method RewriteQuests(quests: seq<Quest>) returns (result: seq<Task>)
    requires DistinctTasks(quests)
    modifies Objects(quests)
    ensures result == Flatten(quests)
    ensures forall a, b :: 0 <= a < |quests| && 0 <= b < |quests[a].tasks| ==>
      SnapTask(quests[a].tasks[b]) == QualifyTask(quests[a].name, old(Snapshot(quests))[a].tasks[b])
  {
    ghost var before := Snapshot(quests);
    result := [];
    for i := 0 to |quests|
      invariant result == Flatten(quests[..i])
      invariant forall a, b :: 0 <= a < i && 0 <= b < |quests[a].tasks| ==>
        SnapTask(quests[a].tasks[b]) == QualifyTask(quests[a].name, before[a].tasks[b])
      invariant forall a, b :: i <= a < |quests| && 0 <= b < |quests[a].tasks| ==>
        SnapTask(quests[a].tasks[b]) == before[a].tasks[b]
    {
      DistinctAt(quests, i);
      result := QualifyQuestTasks(quests[i], result);
      FlattenSnoc(quests, i);
    }
    assert quests[..|quests|] == quests;
  }

  /** The inner loop of all_tasks: rewrites one quest's task objects and pushes them. */
  method QualifyQuestTasks(quest: Quest, result: seq<Task>) returns (pushed: seq<Task>)
    requires forall b, d :: 0 <= b < d < |quest.tasks| ==> quest.tasks[b] != quest.tasks[d]
    modifies set t | t in quest.tasks
    ensures pushed == result + quest.tasks
    ensures forall b :: 0 <= b < |quest.tasks| ==>
      SnapTask(quest.tasks[b]) == QualifyTask(quest.name, old(SnapTask(quest.tasks[b])))
  {
    pushed := result;
    for j := 0 to |quest.tasks|
      invariant pushed == result + quest.tasks[..j]
      invariant forall b :: 0 <= b < j ==> SnapTask(quest.tasks[b]) == QualifyTask(quest.name, old(SnapTask(quest.tasks[b])))
      invariant forall b :: j <= b < |quest.tasks| ==> SnapTask(quest.tasks[b]) == old(SnapTask(quest.tasks[b]))
    {
      var task := quest.tasks[j];
      task.name := QualifyName(quest.name, task.name);
      task.after := QualifyDeps(quest.name, task.after);
      pushed := pushed + [task];
    }
    assert quest.tasks[..|quest.tasks|] == quest.tasks;
  }

  /** The checking half of all_tasks: the first dependency, in order, that names no task. */
  method CheckDependencies(result: seq<Task>) returns (error: Option<string>)
    ensures error == DependencyError(SnapTasks(result))
  {
    ghost var ts := SnapTasks(result);
    var names: set<string> := {};
    for k := 0 to |result|
      invariant names == set x | 0 <= x < k :: ts[x].name
    {
      assert SnapTasks(result)[k] == SnapTask(result[k]);
      names := names + {result[k].name};
      assert names == set x | 0 <= x < k + 1 :: ts[x].name;
    }
    assert names == Names(ts);

    for k := 0 to |result|
      invariant FirstDangling(ts[k..], names) == FirstDangling(ts, names)
    {
      var task := result[k];
      assert SnapTasks(result)[k] == SnapTask(task);
      for m := 0 to |task.after|
        invariant FirstMissing(ts[k].after[m..], names) == FirstMissing(ts[k].after, names)
      {
        if task.after[m] !in names {
          error := Some(UnknownDependency(task.after[m], task.name));
          return;
        }
        assert ts[k].after[m..][1..] == ts[k].after[m + 1..];
      }
      assert ts[k..][1..] == ts[k + 1..];
    }
    error := None;
  }

  // ---------------------------------------------------------------------------
  // Proof helpers for AllTasks

  /** Distinct objects: one quest's tasks are pairwise different and shared with no other quest. */
  lemma DistinctAt(qs: seq<Quest>, i: nat)
    requires DistinctTasks(qs) && i < |qs|
    ensures forall b, d :: 0 <= b < d < |qs[i].tasks| ==> qs[i].tasks[b] != qs[i].tasks[d]
    ensures forall a, b :: 0 <= a < |qs| && a != i && 0 <= b < |qs[a].tasks| ==> qs[a].tasks[b] !in qs[i].tasks
  {
    forall a, b | 0 <= a < |qs| && a != i && 0 <= b < |qs[a].tasks|
      ensures qs[a].tasks[b] !in qs[i].tasks
    {
      forall d | 0 <= d < |qs[i].tasks| ensures qs[i].tasks[d] != qs[a].tasks[b] { }
    }
  }

  lemma FlattenSnoc(qs: seq<Quest>, i: nat)
    requires i < |qs|
    ensures Flatten(qs[..i + 1]) == Flatten(qs[..i]) + qs[i].tasks
  {
    if i == 0 {
      assert qs[..1] == [qs[0]];
      assert Flatten(qs[..1][1..]) == [];
    } else {
      assert qs[..i + 1][1..] == qs[1..][..i];
      assert qs[..i][1..] == qs[1..][..i - 1];
      FlattenSnoc(qs[1..], i - 1);
    }
  }

  lemma SnapshotAfter(qs: seq<Quest>, before: seq<QuestSpec>)
    requires |before| == |qs|
    requires forall a :: 0 <= a < |qs| ==> before[a].name == qs[a].name && |before[a].tasks| == |qs[a].tasks|
    requires forall a, b :: 0 <= a < |qs| && 0 <= b < |qs[a].tasks| ==>
      SnapTask(qs[a].tasks[b]) == QualifyTask(qs[a].name, before[a].tasks[b])
    ensures Snapshot(qs) == QualifyQuests(before)
  {
    forall a | 0 <= a < |qs|
      ensures Snapshot(qs)[a] == QualifyQuests(before)[a]
    {
      assert SnapTasks(qs[a].tasks) == QualifyQuests(before)[a].tasks;
    }
  }

  lemma SnapTasksAppend(xs: seq<Task>, ys: seq<Task>)
    ensures SnapTasks(xs + ys) == SnapTasks(xs) + SnapTasks(ys)
  {
  }

  lemma SnapFlatten(qs: seq<Quest>)
    ensures SnapTasks(Flatten(qs)) == FlattenSpecs(Snapshot(qs))
  {
    if qs != [] {
      SnapTasksAppend(qs[0].tasks, Flatten(qs[1..]));
      SnapFlatten(qs[1..]);
      assert Snapshot(qs)[1..] == Snapshot(qs[1..]);
    }
  }

  // ---------------------------------------------------------------------------
  // Properties of the assembled list

  lemma {:induction false} FlattenLength(qs: seq<QuestSpec>)
    ensures |FlattenSpecs(qs)| == TotalTasks(qs)
  {
    if qs != [] {
      FlattenLength(qs[1..]);
    }
  }

  lemma {:induction false} TotalTasksPrefix(qs: seq<QuestSpec>, a: nat)
    requires a < |qs|
    ensures TotalTasks(qs[..a]) + |qs[a].tasks| <= TotalTasks(qs)
  {
    if a > 0 {
      assert qs[..a][1..] == qs[1..][..a - 1];
      TotalTasksPrefix(qs[1..], a - 1);
    }
  }

  /** The task at position b of quest a sits at offset TotalTasks(qs[..a]) + b of the flat list. */
  lemma {:induction false} FlattenAt(qs: seq<QuestSpec>, a: nat, b: nat)
    requires a < |qs| && b < |qs[a].tasks|
    ensures TotalTasks(qs[..a]) + b < |FlattenSpecs(qs)|
    ensures FlattenSpecs(qs)[TotalTasks(qs[..a]) + b] == qs[a].tasks[b]
  {
    FlattenLength(qs);
    TotalTasksPrefix(qs, a);
    if a > 0 {
      assert qs[..a][1..] == qs[1..][..a - 1];
      FlattenAt(qs[1..], a - 1, b);
    }
  }

  /** Every entry of the flat list is some quest's task. */
  lemma {:induction false} FlattenOrigin(qs: seq<QuestSpec>, k: nat)
    requires k < |FlattenSpecs(qs)|
    ensures exists a, b :: (0 <= a < |qs| && 0 <= b < |qs[a].tasks| && FlattenSpecs(qs)[k] == qs[a].tasks[b])
  {
    if k < |qs[0].tasks| {
      assert FlattenSpecs(qs)[k] == qs[0].tasks[k];
    } else {
      FlattenOrigin(qs[1..], k - |qs[0].tasks|);
      var a, b :| 0 <= a < |qs[1..]| && 0 <= b < |qs[1..][a].tasks| &&
        FlattenSpecs(qs[1..])[k - |qs[0].tasks|] == qs[1..][a].tasks[b];
      assert FlattenSpecs(qs)[k] == qs[a + 1].tasks[b];
    }
  }

  /**
   * Order and naming: the list holds the tasks of quest 0, then quest 1, ..., each
   * quest's tasks in declaration order, task b of quest a named "<quest>/<local>" and
   * its dependencies qualified; its length is the total task count.
   */
  lemma QualifyAllAt(qs: seq<QuestSpec>, a: nat, b: nat)
    requires a < |qs| && b < |qs[a].tasks|
    ensures |QualifyAll(qs)| == TotalTasks(qs)
    ensures TotalTasks(qs[..a]) + b < |QualifyAll(qs)|
    ensures QualifyAll(qs)[TotalTasks(qs[..a]) + b] == QualifyTask(qs[a].name, qs[a].tasks[b])
  {
    var qq := QualifyQuests(qs);
    TotalTasksQualified(qs);
    FlattenLength(qq);
    assert qq[..a] == QualifyQuests(qs[..a]);
    TotalTasksQualified(qs[..a]);
    FlattenAt(qq, a, b);
  }

  lemma {:induction false} TotalTasksQualified(qs: seq<QuestSpec>)
    ensures TotalTasks(QualifyQuests(qs)) == TotalTasks(qs)
  {
    if qs != [] {
      assert QualifyQuests(qs)[1..] == QualifyQuests(qs[1..]);
      TotalTasksQualified(qs[1..]);
    }
  }

  /** Conversely, every task of the list is the qualified form of some declared task. */
  lemma QualifyAllOrigin(qs: seq<QuestSpec>, k: nat)
    requires k < |QualifyAll(qs)|
    ensures exists a, b :: (0 <= a < |qs| && 0 <= b < |qs[a].tasks| &&
      QualifyAll(qs)[k] == QualifyTask(qs[a].name, qs[a].tasks[b]))
  {
    FlattenOrigin(QualifyQuests(qs), k);
  }

  /** A qualified dependency always names its quest, so qualifying it again changes nothing. */
  lemma QualifyDepIdempotent(quest: string, other: string, dep: string)
    ensures '/' in QualifyDep(quest, dep)
    ensures QualifyDep(other, QualifyDep(quest, dep)) == QualifyDep(quest, dep)
  {
    if '/' !in dep {
      assert QualifyName(quest, dep)[|quest|] == '/';
    }
  }

  lemma {:induction false} FirstMissingNone(deps: seq<string>, names: set<string>)
    ensures FirstMissing(deps, names).None? <==> forall m :: 0 <= m < |deps| ==> deps[m] in names
  {
    if deps != [] {
      FirstMissingNone(deps[1..], names);
      assert forall m :: 1 <= m < |deps| ==> deps[m] == deps[1..][m - 1];
    }
  }

  lemma {:induction false} FirstMissingSome(deps: seq<string>, names: set<string>)
    requires FirstMissing(deps, names).Some?
    ensures exists m :: (0 <= m < |deps| && deps[m] == FirstMissing(deps, names).value && deps[m] !in names &&
      forall m' :: 0 <= m' < m ==> deps[m'] in names)
  {
    if deps[0] in names {
      FirstMissingSome(deps[1..], names);
      var m :| 0 <= m < |deps[1..]| && deps[1..][m] == FirstMissing(deps, names).value && deps[1..][m] !in names &&
        forall m' :: 0 <= m' < m ==> deps[1..][m'] in names;
      assert deps[m + 1] == deps[1..][m];
      assert forall m' :: 1 <= m' < m + 1 ==> deps[m'] == deps[1..][m' - 1];
    }
  }

  lemma {:induction false} FirstDanglingNone(ts: seq<TaskSpec>, names: set<string>)
    ensures FirstDangling(ts, names).None? <==>
      forall k, m :: 0 <= k < |ts| && 0 <= m < |ts[k].after| ==> ts[k].after[m] in names
  {
    if ts != [] {
      FirstMissingNone(ts[0].after, names);
      FirstDanglingNone(ts[1..], names);
      assert forall k :: 1 <= k < |ts| ==> ts[k] == ts[1..][k - 1];
    }
  }

  /** The reported dependency is the first unknown one: every earlier entry resolves. */
  lemma {:induction false} FirstDanglingSome(ts: seq<TaskSpec>, names: set<string>)
    requires FirstDangling(ts, names).Some?
    ensures exists k, m :: (0 <= k < |ts| && 0 <= m < |ts[k].after| &&
      FirstDangling(ts, names).value == (ts[k].after[m], ts[k].name) && ts[k].after[m] !in names &&
      (forall k', m' :: 0 <= k' < k && 0 <= m' < |ts[k'].after| ==> ts[k'].after[m'] in names) &&
      (forall m' :: 0 <= m' < m ==> ts[k].after[m'] in names))
  {
    if FirstMissing(ts[0].after, names).Some? {
      FirstMissingSome(ts[0].after, names);
      var m :| 0 <= m < |ts[0].after| && ts[0].after[m] == FirstMissing(ts[0].after, names).value &&
        ts[0].after[m] !in names && forall m' :: 0 <= m' < m ==> ts[0].after[m'] in names;
      assert FirstDangling(ts, names).value == (ts[0].after[m], ts[0].name);
    } else {
      FirstMissingNone(ts[0].after, names);
      FirstDanglingSome(ts[1..], names);
      var k, m :| 0 <= k < |ts[1..]| && 0 <= m < |ts[1..][k].after| &&
        FirstDangling(ts[1..], names).value == (ts[1..][k].after[m], ts[1..][k].name) && ts[1..][k].after[m] !in names &&
        (forall k', m' :: 0 <= k' < k && 0 <= m' < |ts[1..][k'].after| ==> ts[1..][k'].after[m'] in names) &&
        (forall m' :: 0 <= m' < m ==> ts[1..][k].after[m'] in names);
      assert ts[k + 1] == ts[1..][k];
      assert forall k' :: 1 <= k' < k + 1 ==> ts[k'] == ts[1..][k' - 1];
    }
  }

  /** The build succeeds exactly when every dependency resolves, and then returns the qualified list. */
  lemma BuildGraphSuccess(qs: seq<QuestSpec>)
    ensures BuildGraph(qs).Success? <==> AllResolved(QualifyAll(qs))
    ensures BuildGraph(qs).Success? ==> BuildGraph(qs).value == QualifyAll(qs)
  {
    var ts := QualifyAll(qs);
    FirstDanglingNone(ts, Names(ts));
  }

  /**
   * A failed build reports "Unknown task dependency <dep> of <task>" for the first
   * dependency, in task order and then list order, that names no task.
   */
  lemma BuildGraphFailure(qs: seq<QuestSpec>)
    requires BuildGraph(qs).Failure?
    ensures var ts := QualifyAll(qs);
      exists k, m :: (0 <= k < |ts| && 0 <= m < |ts[k].after| &&
        BuildGraph(qs).error == UnknownDependency(ts[k].after[m], ts[k].name) &&
        ts[k].after[m] !in Names(ts) &&
        (forall k', m' :: 0 <= k' < k && 0 <= m' < |ts[k'].after| ==> ts[k'].after[m'] in Names(ts)) &&
        (forall m' :: 0 <= m' < m ==> ts[k].after[m'] in Names(ts)))
  {
    var ts := QualifyAll(qs);
    FirstDanglingSome(ts, Names(ts));
  }

  /**
   * The name set is built from every quest before any dependency is checked, so a
   * qualified dependency on a task of any quest, earlier or later, resolves.
   */
  lemma CrossQuestDependencyResolves(qs: seq<QuestSpec>, a: nat, b: nat, m: nat, c: nat, e: nat)
    requires a < |qs| && b < |qs[a].tasks| && m < |qs[a].tasks[b].after|
    requires c < |qs| && e < |qs[c].tasks|
    requires qs[a].tasks[b].after[m] == QualifyName(qs[c].name, qs[c].tasks[e].name)
    ensures QualifyDep(qs[a].name, qs[a].tasks[b].after[m]) in Names(QualifyAll(qs))
  {
    var dep := qs[a].tasks[b].after[m];
    assert dep[|qs[c].name|] == '/';
    QualifyAllAt(qs, c, e);
    var k := TotalTasks(qs[..c]) + e;
    assert QualifyAll(qs)[k].name == dep;
  }

  /** An unqualified dependency on a task of the same quest resolves. */
  lemma LocalDependencyResolves(qs: seq<QuestSpec>, a: nat, b: nat, m: nat, e: nat)
    requires a < |qs| && b < |qs[a].tasks| && m < |qs[a].tasks[b].after| && e < |qs[a].tasks|
    requires '/' !in qs[a].tasks[b].after[m]
    requires qs[a].tasks[b].after[m] == qs[a].tasks[e].name
    ensures QualifyDep(qs[a].name, qs[a].tasks[b].after[m]) in Names(QualifyAll(qs))
  {
    QualifyAllAt(qs, a, e);
    var k := TotalTasks(qs[..a]) + e;
    assert QualifyAll(qs)[k].name == QualifyDep(qs[a].name, qs[a].tasks[b].after[m]);
  }

  /**
   * Running the rewrite a second time on the same objects prefixes every name once
   * more but leaves every dependency as it is: the rewrite is not idempotent.
   */
  lemma RewriteTwice(qs: seq<QuestSpec>, a: nat, b: nat)
    requires a < |qs| && b < |qs[a].tasks|
    ensures var once := QualifyQuests(qs)[a].tasks[b];
      var twice := QualifyQuests(QualifyQuests(qs))[a].tasks[b];
      twice.name == QualifyName(qs[a].name, once.name) && twice.after == once.after && twice != once
  {
    var once := QualifyQuests(qs)[a].tasks[b];
    var twice := QualifyQuests(QualifyQuests(qs))[a].tasks[b];
    forall m | 0 <= m < |once.after|
      ensures twice.after[m] == once.after[m]
    {
      QualifyDepIdempotent(qs[a].name, qs[a].name, qs[a].tasks[b].after[m]);
    }
    assert |twice.name| > |once.name|;
  }

  /** A declared dependency: a task name of the same quest, or the qualified name of any quest's task. */
  ghost predicate Declared(qs: seq<QuestSpec>, a: nat, dep: string)
    requires a < |qs|
  {
    || ('/' !in dep && exists e :: 0 <= e < |qs[a].tasks| && qs[a].tasks[e].name == dep)
    || (exists c, e :: 0 <= c < |qs| && 0 <= e < |qs[c].tasks| && dep == QualifyName(qs[c].name, qs[c].tasks[e].name))
  }

  /** Quests whose every dependency is declared always build, in whatever order they are listed. */
  lemma DeclaredDependenciesBuild(qs: seq<QuestSpec>)
    requires forall a, b, m :: 0 <= a < |qs| && 0 <= b < |qs[a].tasks| && 0 <= m < |qs[a].tasks[b].after| ==>
      Declared(qs, a, qs[a].tasks[b].after[m])
    ensures BuildGraph(qs).Success?
  {
    var ts := QualifyAll(qs);
    forall k, m | 0 <= k < |ts| && 0 <= m < |ts[k].after|
      ensures ts[k].after[m] in Names(ts)
    {
      QualifyAllOrigin(qs, k);
      var a, b :| 0 <= a < |qs| && 0 <= b < |qs[a].tasks| && ts[k] == QualifyTask(qs[a].name, qs[a].tasks[b]);
      var dep := qs[a].tasks[b].after[m];
      assert ts[k].after[m] == QualifyDep(qs[a].name, dep);
      if '/' !in dep && exists e :: 0 <= e < |qs[a].tasks| && qs[a].tasks[e].name == dep {
        var e :| 0 <= e < |qs[a].tasks| && qs[a].tasks[e].name == dep;
        LocalDependencyResolves(qs, a, b, m, e);
      } else {
        var c, e :| 0 <= c < |qs| && 0 <= e < |qs[c].tasks| && dep == QualifyName(qs[c].name, qs[c].tasks[e].name);
        CrossQuestDependencyResolves(qs, a, b, m, c, e);
      }
    }
    BuildGraphSuccess(qs);
  }

  /** Duplicate task names and dependency cycles are not rejected: only membership is checked. */
  lemma DuplicatesAndCyclesAccepted()
    ensures BuildGraph([QuestSpec("A", [TaskSpec("x", ["y"]), TaskSpec("y", ["x"]), TaskSpec("x", [])])]).Success?
  {
    var qs := [QuestSpec("A", [TaskSpec("x", ["y"]), TaskSpec("y", ["x"]), TaskSpec("x", [])])];
    assert qs[0].tasks[0].name == "x" && qs[0].tasks[1].name == "y";
    assert '/' !in "x" && '/' !in "y";
    DeclaredDependenciesBuild(qs);
  }
}
