/**
 * The older resource catalogue (src/resources.ts): six banish sources, a
 * banish state that fixes the committed banishers when it is built and has no
 * ice-house exception, and the void-charging / cursed-magnifying-glass pair
 * with its extra gunpowder-or-lighthouse condition.
 */
module LegacyResources {
  import opened Wrappers
  import opened Subsequence
  import opened Game
  import opened Banish

  /** `banishSources`: the six banish sources, in the order they are tried. */
  function Catalogue(env: Env): (c: seq<BanishSource>)
    ensures |c| == 6
    ensures forall i, j :: 0 <= i < j < |c| ==> c[i].banisher != c[j].banisher && c[i].name != c[j].name
  {
    [
      BanishSource("Bowl Curveball", Have(env, "cosmic bowling ball"), SkillBanisher("Bowl a Curveball"), None),
      BanishSource("System Sweep", HaveSkill(env, "System Sweep"), SkillBanisher("System Sweep"), None),
      BanishSource("Reflex Hammer", Count(env, "_reflexHammerUsed") < 3 && Have(env, "Lil' Doctor™ bag"),
                   SkillBanisher("Reflex Hammer"), Some("Lil' Doctor™ bag")),
      BanishSource("KGB dart",
                   Count(env, "_kgbTranquilizerDartUses") < 3 && Have(env, "Kremlin's Greatest Briefcase"),
                   SkillBanisher("KGB tranquilizer dart"), Some("Kremlin's Greatest Briefcase")),
      BanishSource("Latte",
                   (!Flag(env, "_latteBanishUsed") || Count(env, "_latteRefillsUsed") < 2) &&
                   Have(env, "latte lovers member's mug"),
                   SkillBanisher("Throw Latte on Opponent"), Some("latte lovers member's mug")),
      BanishSource("Middle Finger",
                   !Flag(env, "_mafiaMiddleFingerRingUsed") && Have(env, "mafia middle finger ring"),
                   SkillBanisher("Show them your ring"), Some("mafia middle finger ring"))
    ]
  }

  /** The banishes of the current game and the banishers the given tasks have committed. */
  class BanishState {
    const alreadyBanished: map<Monster, Banisher>
    const usedBanishes: set<Banisher>

    /**
     * Takes the `getBanishedMonsters()` entries, (banisher, monster) pairs in
     * record order, and the tasks whose banish targets commit banishers.
     */
    constructor(entries: seq<(Banisher, Monster)>, tasks: seq<Task>)
      ensures alreadyBanished == Inverted(entries)
      ensures usedBanishes == UsedBanishers(alreadyBanished, tasks)
    {
      var banished := Inverted(entries);
      var used := CollectUsed(banished, tasks);
      alreadyBanished := banished;
      usedBanishes := used;
    }

    /** Some banish target of the task is banished, by any banisher at all. */
    function IsPartiallyBanished(task: Task): (r: bool)
      ensures r <==> task.banishTargets.Some? &&
                     exists m :: m in task.banishTargets.value && m in alreadyBanished
    {
      SomeBanished(alreadyBanished, task, {})
    }

    /** Every banish target of the task is banished; true when it has none. */
    function IsFullyBanished(task: Task): (r: bool)
      ensures r <==> forall m :: m in Targets(task) ==> m in alreadyBanished
    {
      AllBanished(alreadyBanished, task)
    }

    /** With at least one target, a fully banished task is also partially banished. */
    lemma FullyImpliesPartially(task: Task)
      requires Targets(task) != [] && IsFullyBanished(task)
      ensures IsPartiallyBanished(task)
    {
      assert Targets(task)[0] in Targets(task);
    }

    /** The sources still free: available, and not among the committed banishers. */
    function UnusedBanishes(env: Env): (r: seq<BanishSource>)
      ensures IsSubsequence(r, Catalogue(env))
      ensures forall s :: s in r <==> s in Catalogue(env) && s.available && s.banisher !in usedBanishes
    {
      Unused(Catalogue(env), usedBanishes)
    }
  }

  /** Void monsters can still be charged: fewer than 13 glass charges and free fights left. */
  function CanChargeVoid(env: Env): (r: bool)
    ensures r ==> Count(env, "cursedMagnifyingGlassCount") < 13
  {
    Count(env, "_voidFreeFights") < 5 && Count(env, "cursedMagnifyingGlassCount") < 13
  }

  /**
   * The cursed magnifying glass wanderer is due: the glass is charged to 13,
   * free fights remain, and the glass is no longer needed for the gunpowder
   * (five barrels in hand, or the lighthouse sidequest settled).
   */
  function MagnifyingGlassAvailable(env: Env): (r: bool)
    ensures r ==> Count(env, "cursedMagnifyingGlassCount") >= 13
    ensures r ==> ItemAmount(env, "barrel of gunpowder") >= 5 || Text(env, "sidequestLighthouseCompleted") != "none"
  {
    Have(env, "cursed magnifying glass") && Count(env, "_voidFreeFights") < 5 &&
    Count(env, "cursedMagnifyingGlassCount") >= 13 &&
    (ItemAmount(env, "barrel of gunpowder") >= 5 || Text(env, "sidequestLighthouseCompleted") != "none")
  }

  /** Charging the glass and fighting its wanderer never compete for the same turn. */
  lemma ChargeOrFight(env: Env)
    ensures !(CanChargeVoid(env) && MagnifyingGlassAvailable(env))
  {
  }
}
