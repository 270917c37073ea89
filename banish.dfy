/**
 * Banish bookkeeping shared by both versions of `BanishState`: the inversion
 * of the game's banished-monster list into a monster-to-banisher map, the
 * banishers committed to the targets of a list of tasks, and the filter of a
 * banish catalogue down to the sources still free to use.
 */
module Banish {
  import opened Wrappers
  import opened Subsequence

  type Monster = string

  /** What a banish source uses: `Item | Skill`, compared by identity. */
  datatype Banisher = ItemBanisher(item: string) | SkillBanisher(skill: string)

  /**
   * A task as the banish bookkeeping sees it: `task.combat?.where("banish")`,
   * None when the task has no combat strategy.
   */
  datatype Task = Task(name: string, banishTargets: Option<seq<Monster>>)

  /** A banish source of the catalogue, with `available()` read in the current game state. */
  datatype BanishSource = BanishSource(name: string, available: bool, banisher: Banisher, equip: Option<string>)

  /**
   * `new Map(entries.map(([banisher, monster]) => [monster, banisher]))`: a
   * monster banished twice keeps the banisher of its later entry.
   */
  function Inverted(entries: seq<(Banisher, Monster)>): (m: map<Monster, Banisher>)
    ensures forall mon :: mon in m <==> exists i :: 0 <= i < |entries| && entries[i].1 == mon
  {
    if entries == [] then map[]
    else
      var last := entries[|entries| - 1];
      var m' := Inverted(entries[..|entries| - 1]);
      assert forall i :: 0 <= i < |entries| - 1 ==> entries[..|entries| - 1][i] == entries[i];
      m'[last.1 := last.0]
  }

  /** The map sends each monster to the banisher of its last entry. */
  lemma {:induction false} InvertedLastWins(entries: seq<(Banisher, Monster)>, i: nat)
    requires i < |entries|
    requires forall j :: i < j < |entries| ==> entries[j].1 != entries[i].1
    ensures Inverted(entries)[entries[i].1] == entries[i].0
    decreases |entries|
  {
    if i < |entries| - 1 {
      var init := entries[..|entries| - 1];
      assert init[i] == entries[i];
      InvertedLastWins(init, i);
    }
  }

  /** `xs.find(p)`: the first element satisfying `p`, None when there is none. */
  function Find<T>(xs: seq<T>, p: T -> bool): (r: Option<T>)
    ensures r.Some? ==> exists i :: 0 <= i < |xs| && xs[i] == r.value && p(xs[i]) && forall j :: 0 <= j < i ==> !p(xs[j])
    ensures r.None? <==> forall i :: 0 <= i < |xs| ==> !p(xs[i])
  {
    if xs == [] then None
    else if p(xs[0]) then Some(xs[0])
    else
      var r := Find(xs[1..], p);
      assert forall i :: 1 <= i < |xs| ==> xs[1..][i - 1] == xs[i];
      r
  }

  /** The banishers already used on the monsters of one target list. */
  function TargetBanishers(banished: map<Monster, Banisher>, targets: seq<Monster>): set<Banisher>
  {
    if targets == [] then {}
    else
      var m := targets[|targets| - 1];
      TargetBanishers(banished, targets[..|targets| - 1]) + (if m in banished then {banished[m]} else {})
  }

  function TaskBanishers(banished: map<Monster, Banisher>, task: Task): set<Banisher>
  {
    match task.banishTargets
    case None => {}
    case Some(targets) => TargetBanishers(banished, targets)
  }

  /** The banishers committed to some target of some task: the `used_banishes` set. */
  function UsedBanishers(banished: map<Monster, Banisher>, tasks: seq<Task>): set<Banisher>
  {
    if tasks == [] then {}
    else UsedBanishers(banished, tasks[..|tasks| - 1]) + TaskBanishers(banished, tasks[|tasks| - 1])
  }

  /** A banisher is used for a target list iff it banished one of the targets. */
  lemma {:induction false} TargetBanishersMeaning(banished: map<Monster, Banisher>, targets: seq<Monster>, b: Banisher)
    ensures b in TargetBanishers(banished, targets) <==>
            exists j :: 0 <= j < |targets| && targets[j] in banished && banished[targets[j]] == b
    decreases |targets|
  {
    if targets != [] {
      var init := targets[..|targets| - 1];
      TargetBanishersMeaning(banished, init, b);
      assert forall j :: 0 <= j < |init| ==> init[j] == targets[j];
    }
  }

  /**
   * `used_banishes` holds exactly the banishers of the monsters that some task
   * with a combat strategy lists as a banish target and that are already banished.
   */
  lemma {:induction false} UsedBanishersMeaning(banished: map<Monster, Banisher>, tasks: seq<Task>, b: Banisher)
    ensures b in UsedBanishers(banished, tasks) <==>
            exists i, j :: 0 <= i < |tasks| && tasks[i].banishTargets.Some? &&
                           0 <= j < |tasks[i].banishTargets.value| &&
                           tasks[i].banishTargets.value[j] in banished &&
                           banished[tasks[i].banishTargets.value[j]] == b
    decreases |tasks|
  {
    if tasks != [] {
      var init := tasks[..|tasks| - 1];
      var last := tasks[|tasks| - 1];
      UsedBanishersMeaning(banished, init, b);
      assert forall i :: 0 <= i < |init| ==> init[i] == tasks[i];
      if last.banishTargets.Some? {
        TargetBanishersMeaning(banished, last.banishTargets.value, b);
      }
    }
  }

  /** A task without a combat strategy adds nothing to `used_banishes`. */
  lemma NoCombatNoBanishers(banished: map<Monster, Banisher>, tasks: seq<Task>, task: Task)
    requires task.banishTargets.None?
    ensures UsedBanishers(banished, tasks + [task]) == UsedBanishers(banished, tasks)
  {
    assert (tasks + [task])[..|tasks|] == tasks;
  }

  /** The nested loops that fill `used_banishes`. */
  method CollectUsed(banished: map<Monster, Banisher>, tasks: seq<Task>) returns (used: set<Banisher>)
    ensures used == UsedBanishers(banished, tasks)
  {
    used := {};
    for i := 0 to |tasks|
      invariant used == UsedBanishers(banished, tasks[..i])
    {
      assert tasks[..i + 1][..i] == tasks[..i];
      if tasks[i].banishTargets.None? {
        continue;
      }
      var targets := tasks[i].banishTargets.value;
      for j := 0 to |targets|
        invariant used == UsedBanishers(banished, tasks[..i]) + TargetBanishers(banished, targets[..j])
      {
        assert targets[..j + 1][..j] == targets[..j];
        if targets[j] in banished {
          used := used + {banished[targets[j]]};
        }
      }
      assert targets[..|targets|] == targets;
    }
    assert tasks[..|tasks|] == tasks;
  }

  /** `banishSources.filter(b => b.available() && !used.has(b.do))`. */
  function Unused(catalogue: seq<BanishSource>, used: set<Banisher>): (r: seq<BanishSource>)
    ensures IsSubsequence(r, catalogue)
    ensures forall s :: s in r <==> s in catalogue && s.available && s.banisher !in used
  {
    if catalogue == [] then []
    else
      var rest := Unused(catalogue[1..], used);
      assert forall s :: s in catalogue <==> s == catalogue[0] || s in catalogue[1..];
      if catalogue[0].available && catalogue[0].banisher !in used then [catalogue[0]] + rest else rest
  }

  /**
   * A source whose banisher already banished a target of some task is left
   * out of the free sources, however available it is.
   */
  lemma CommittedExcluded(banished: map<Monster, Banisher>, tasks: seq<Task>, catalogue: seq<BanishSource>,
                          i: nat, j: nat, s: BanishSource)
    requires i < |tasks| && tasks[i].banishTargets.Some? && j < |tasks[i].banishTargets.value|
    requires tasks[i].banishTargets.value[j] in banished
    requires s.banisher == banished[tasks[i].banishTargets.value[j]]
    ensures s !in Unused(catalogue, UsedBanishers(banished, tasks))
  {
    UsedBanishersMeaning(banished, tasks, s.banisher);
  }

  /** The monsters a task still wants banished: none when it has no combat strategy. */
  function Targets(task: Task): seq<Monster>
  {
    match task.banishTargets
    case None => []
    case Some(targets) => targets
  }

  /**
   * The shared body of `isPartiallyBanished`: some target is banished by a
   * banisher outside `except`.
   */
  predicate SomeBanished(banished: map<Monster, Banisher>, task: Task, except: set<Banisher>)
  {
    task.banishTargets.Some? &&
    Find(task.banishTargets.value, (m: Monster) => m in banished && banished[m] !in except) != None
  }

  /** The shared body of `isFullyBanished`: no target is missing from the map. */
  predicate AllBanished(banished: map<Monster, Banisher>, task: Task)
  {
    Find(Targets(task), (m: Monster) => m !in banished) == None
  }
}
