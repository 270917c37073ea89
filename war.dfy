/**
 * The level-12 war quest (src/tasks/level12.ts): the small predicates that
 * decide when the war is fought or skipped, the completion and readiness
 * conditions of its tasks, the correction of the flyer counter at the end of
 * the arena sidequest, and the dependency data of the quest.
 */
module War {
  import opened Wrappers
  import opened Game
  import opened TaskGraph

  // ---------------------------------------------------------------------------
  // Pure helpers

  /** `Math.max(lo, Math.min(n, hi))`. */
  function Clamp(n: int, lo: int, hi: int): (r: int)
    ensures r >= lo
    ensures lo <= hi ==> lo <= r <= hi
    ensures lo <= n <= hi ==> r == n
    ensures lo <= hi && n < lo ==> r == lo
    ensures lo <= hi && n > hi ==> r == hi
  {
    var m := if n < hi then n else hi;
    if lo > m then lo else m
  }

  /** The war itself waits until the end of ronin when the war is delayed. */
  predicate WarReady(args: Args, env: Env)
  {
    !args.delaywar || env.turncount >= 1000
  }

  /** The sidequests are skipped entirely after ronin, or when the war is delayed. */
  predicate WarSkip(args: Args, env: Env)
  {
    args.delaywar || env.turncount >= 1000
  }

  /** After ronin both hold; before it exactly one does, and the war is skipped iff it is delayed. */
  lemma ReadyOrSkip(args: Args, env: Env)
    ensures env.turncount >= 1000 ==> WarReady(args, env) && WarSkip(args, env)
    ensures env.turncount < 1000 ==> WarReady(args, env) != WarSkip(args, env)
    ensures env.turncount < 1000 ==> (WarSkip(args, env) <==> args.delaywar)
  {
  }

  predicate HippyOutfit(env: Env)
  {
    Have(env, "filthy corduroys") && Have(env, "filthy knitted dread sack")
  }

  predicate FratOutfit(env: Env)
  {
    Have(env, "beer helmet") && Have(env, "distressed denim pants") && Have(env, "bejeweled pledge pin")
  }

  /**
   * Visiting the council starts the war, after which the hippy outfit is harder
   * to get: it is safe when the war is delayed, below level 12, or with either
   * war outfit in hand.
   */
  function CouncilSafe(args: Args, env: Env): (r: bool)
    ensures !r ==> !args.delaywar && AtLevel(env, 12) && !HippyOutfit(env) && !FratOutfit(env)
  {
    args.delaywar || !AtLevel(env, 12) || HippyOutfit(env) || FratOutfit(env)
  }

  /** The arena sidequest has flyered enough monsters. */
  predicate FlyersDone(env: Env)
  {
    Count(env, "flyeredML") >= 10000
  }

  // ---------------------------------------------------------------------------
  // The flyer correction of "Flyers End"

  const FlyerBuffer := "_loopgyou_flyeredML_buffer"

  /** The persisted settings of the game, which a task's action updates in place. */
  class Settings {
    var env: Env

    constructor(env: Env)
      ensures this.env == env
    {
      this.env := env;
    }
  }

  /** The settings after the flyer correction: the excess over 9900 moves into the buffer. */
  function FlyersCorrected(env: Env): Env
  {
    var counters := env.counters[FlyerBuffer := Count(env, FlyerBuffer) + (Count(env, "flyeredML") - 9900)];
    env.(counters := counters["flyeredML" := 9900])
  }

  /**
   * The action of "Flyers End" once the arena has been visited: when the
   * flyers are still held, mafia's count was wrong, so the excess over 9900 is
   * banked in the buffer and the count reset to 9900 to keep flyering.
   */
  method CorrectFlyers(settings: Settings, stillHoldFlyers: bool)
    modifies settings
    ensures settings.env == if stillHoldFlyers then FlyersCorrected(old(settings.env)) else old(settings.env)
  {
    if stillHoldFlyers {
      var buffer := Count(settings.env, FlyerBuffer) + (Count(settings.env, "flyeredML") - 9900);
      settings.env := settings.env.(counters := settings.env.counters[FlyerBuffer := buffer]);
      settings.env := settings.env.(counters := settings.env.counters["flyeredML" := 9900]);
    }
  }

  /**
   * The correction keeps flyered ML plus buffer, sets the count to 9900, and
   * touches no other setting.
   */
  lemma {:induction false} CorrectionKeepsTotal(env: Env)
    ensures Count(FlyersCorrected(env), "flyeredML") + Count(FlyersCorrected(env), FlyerBuffer) ==
            Count(env, "flyeredML") + Count(env, FlyerBuffer)
    ensures Count(FlyersCorrected(env), "flyeredML") == 9900
    ensures forall k :: k != "flyeredML" && k != FlyerBuffer ==> Count(FlyersCorrected(env), k) == Count(env, k)
    ensures FlyersCorrected(env).(counters := env.counters) == env
  {
    assert FlyerBuffer != "flyeredML" by {
      assert FlyerBuffer[0] != "flyeredML"[0];
    }
  }

  /**
   * "Flyers End" is only ready once the flyers are done, so a correction banks
   * at least 100 ML and leaves the task not ready until more is flyered.
   */
  lemma CorrectionRearms(env: Env)
    requires FlyersDone(env)
    ensures Count(FlyersCorrected(env), FlyerBuffer) >= Count(env, FlyerBuffer) + 100
    ensures !FlyersDone(FlyersCorrected(env))
  {
    CorrectionKeepsTotal(env);
  }

  // ---------------------------------------------------------------------------
  // The tasks of the quest

  /** The tasks of the war quest, in declaration order. */
  datatype WarTask =
    | Start | OutfitHippy | OutfitFrat | Enrage
    | FlyersStart | FlyersEnd
    | Lighthouse | LighthouseBasic | LighthouseEnd
    | JunkyardStart | JunkyardHammer | JunkyardWrench | JunkyardPliers | JunkyardScrewdriver | JunkyardEnd
    | OpenOrchard
    | OrchardHatching | OrchardFeeding | OrchardGuard | OrchardQueen | OrchardFinish
    | OpenNuns | Nuns | Clear | Fluffers | BossHippie

  /** A dependency: a task of this quest by its local name, or a name already qualified with its quest. */
  datatype Dependency = Local(task: WarTask) | Qualified(name: string)

  const UnlockIsland := "Misc/Unlock Island"

  function Name(t: WarTask): string
  {
    match t
    case Start => "Start"
    case OutfitHippy => "Outfit Hippy"
    case OutfitFrat => "Outfit Frat"
    case Enrage => "Enrage"
    case FlyersStart => "Flyers Start"
    case FlyersEnd => "Flyers End"
    case Lighthouse => "Lighthouse"
    case LighthouseBasic => "Lighthouse Basic"
    case LighthouseEnd => "Lighthouse End"
    case JunkyardStart => "Junkyard Start"
    case JunkyardHammer => "Junkyard Hammer"
    case JunkyardWrench => "Junkyard Wrench"
    case JunkyardPliers => "Junkyard Pliers"
    case JunkyardScrewdriver => "Junkyard Screwdriver"
    case JunkyardEnd => "Junkyard End"
    case OpenOrchard => "Open Orchard"
    case OrchardHatching => "Orchard Hatching"
    case OrchardFeeding => "Orchard Feeding"
    case OrchardGuard => "Orchard Guard"
    case OrchardQueen => "Orchard Queen"
    case OrchardFinish => "Orchard Finish"
    case OpenNuns => "Open Nuns"
    case Nuns => "Nuns"
    case Clear => "Clear"
    case Fluffers => "Fluffers"
    case BossHippie => "Boss Hippie"
  }

  /** The `after` list of each task. */
  function After(t: WarTask): seq<Dependency>
  {
    match t
    case Start => []
    case OutfitHippy => [Qualified(UnlockIsland)]
    case OutfitFrat => [Local(Start), Local(OutfitHippy)]
    case Enrage => [Local(Start), Qualified(UnlockIsland), Local(OutfitFrat)]
    case FlyersStart => [Local(Enrage)]
    case FlyersEnd => [Local(FlyersStart)]
    case Lighthouse => [Local(Enrage)]
    case LighthouseBasic => [Local(Enrage), Local(Lighthouse)]
    case LighthouseEnd => [Local(LighthouseBasic)]
    case JunkyardStart => [Local(Enrage)]
    case JunkyardHammer => [Local(JunkyardStart)]
    case JunkyardWrench => [Local(JunkyardStart)]
    case JunkyardPliers => [Local(JunkyardStart)]
    case JunkyardScrewdriver => [Local(JunkyardStart)]
    case JunkyardEnd => [Local(JunkyardHammer), Local(JunkyardWrench), Local(JunkyardPliers), Local(JunkyardScrewdriver)]
    case OpenOrchard => [Local(FlyersEnd), Local(LighthouseEnd), Local(JunkyardEnd)]
    case OrchardHatching => [Local(Enrage)]
    case OrchardFeeding => [Local(OrchardHatching)]
    case OrchardGuard => [Local(OrchardFeeding)]
    case OrchardQueen => [Local(OrchardGuard)]
    case OrchardFinish => [Local(OrchardQueen), Local(OpenOrchard)]
    case OpenNuns => [Local(OrchardFinish)]
    case Nuns => [Local(OpenNuns)]
    case Clear => [Local(Nuns)]
    case Fluffers => [Local(Enrage)]
    case BossHippie => [Local(Clear), Local(Fluffers)]
  }

  /** The declaration order: the main tasks with the sidequest lists spliced in. */
  const Order: seq<WarTask> := [
    Start, OutfitHippy, OutfitFrat, Enrage,
    FlyersStart, FlyersEnd,
    Lighthouse, LighthouseBasic, LighthouseEnd,
    JunkyardStart, JunkyardHammer, JunkyardWrench, JunkyardPliers, JunkyardScrewdriver, JunkyardEnd,
    OpenOrchard,
    OrchardHatching, OrchardFeeding, OrchardGuard, OrchardQueen, OrchardFinish,
    OpenNuns, Nuns, Clear, Fluffers, BossHippie
  ]

  /** Where a task stands in the declaration order. */
  function Position(t: WarTask): (p: nat)
    ensures p < |Order| && Order[p] == t
  {
    match t
    case Start => 0
    case OutfitHippy => 1
    case OutfitFrat => 2
    case Enrage => 3
    case FlyersStart => 4
    case FlyersEnd => 5
    case Lighthouse => 6
    case LighthouseBasic => 7
    case LighthouseEnd => 8
    case JunkyardStart => 9
    case JunkyardHammer => 10
    case JunkyardWrench => 11
    case JunkyardPliers => 12
    case JunkyardScrewdriver => 13
    case JunkyardEnd => 14
    case OpenOrchard => 15
    case OrchardHatching => 16
    case OrchardFeeding => 17
    case OrchardGuard => 18
    case OrchardQueen => 19
    case OrchardFinish => 20
    case OpenNuns => 21
    case Nuns => 22
    case Clear => 23
    case Fluffers => 24
    case BossHippie => 25
  }

  /** The written form of a dependency, as it appears in the `after` list. */
  function DependencyName(d: Dependency): string
  {
    match d
    case Local(t) => Name(t)
    case Qualified(name) => name
  }

  /** The quest as the task-graph assembly receives it. */
  function WarQuest(): QuestSpec
  {
    QuestSpec("War", seq(|Order|, i requires 0 <= i < |Order| =>
      TaskSpec(Name(Order[i]), seq(|After(Order[i])|, k requires 0 <= k < |After(Order[i])| =>
        DependencyName(After(Order[i])[k])))))
  }

  /** Local task names are unqualified. */
  lemma NameUnqualified(t: WarTask)
    ensures '/' !in Name(t)
  {
    if Position(t) < 9 {
      EarlyNameUnqualified(t);
    } else if Position(t) < 16 {
      JunkyardNameUnqualified(t);
    } else {
      LateNameUnqualified(t);
    }
  }

  lemma EarlyNameUnqualified(t: WarTask)
    requires Position(t) < 9
    ensures '/' !in Name(t)
  {
  }

  lemma JunkyardNameUnqualified(t: WarTask)
    requires 9 <= Position(t) < 16
    ensures '/' !in Name(t)
  {
  }

  lemma LateNameUnqualified(t: WarTask)
    requires 16 <= Position(t)
    ensures '/' !in Name(t)
  {
  }

  /**
   * Every `after` entry of the war quest is the already-qualified island
   * unlock or a task declared earlier in the quest, so the declaration order
   * is an order in which the local dependencies can run.
   */
  lemma DependenciesDeclaredEarlier(t: WarTask, d: Dependency)
    requires d in After(t)
    ensures d == Qualified(UnlockIsland) || (d.Local? && Position(d.task) < Position(t))
  {
  }

  /**
   * Listed with a quest that declares the island unlock, every dependency of
   * the war quest names a task of the assembled list.
   */
  lemma WarDependenciesResolve(qs: seq<QuestSpec>, a: nat, c: nat, e: nat, b: nat, m: nat)
    requires a < |qs| && qs[a] == WarQuest()
    requires c < |qs| && e < |qs[c].tasks| && QualifyName(qs[c].name, qs[c].tasks[e].name) == UnlockIsland
    requires b < |qs[a].tasks| && m < |qs[a].tasks[b].after|
    ensures QualifyDep(qs[a].name, qs[a].tasks[b].after[m]) in Names(QualifyAll(qs))
  {
    var d := After(Order[b])[m];
    DependenciesDeclaredEarlier(Order[b], d);
    assert qs[a].tasks[b].after[m] == DependencyName(d);
    match d
    case Qualified(_) =>
      CrossQuestDependencyResolves(qs, a, b, m, c, e);
    case Local(t) =>
      NameUnqualified(t);
      LocalDependencyResolves(qs, a, b, m, Position(t));
  }

  // ---------------------------------------------------------------------------
  // Task conditions

  /** A sidequest whose completion setting has left its initial "none". */
  predicate SidequestDone(env: Env, sidequest: string)
  {
    Text(env, "sidequest" + sidequest + "Completed") != "none"
  }

  /** The orchard chain: each stage is done when its gland, stench or any later stage is held. */
  predicate OrchardStageDone(env: Env, stage: nat)
  {
    (stage <= 0 && (Have(env, "filthworm hatchling scent gland") || HaveEffect(env, "Filthworm Larva Stench"))) ||
    (stage <= 1 && (Have(env, "filthworm drone scent gland") || HaveEffect(env, "Filthworm Drone Stench"))) ||
    (stage <= 2 && (Have(env, "filthworm royal guard scent gland") || HaveEffect(env, "Filthworm Guard Stench"))) ||
    Have(env, "heart of the filthworm queen")
  }

  /** The gunpowder is in hand or the lighthouse sidequest is settled. */
  predicate GunpowderDone(env: Env)
  {
    ItemAmount(env, "barrel of gunpowder") >= 5 || SidequestDone(env, "Lighthouse")
  }

  /** The `completed` condition of each war task. */
  predicate Completed(t: WarTask, args: Args, env: Env)
  {
    var skip := WarSkip(args, env);
    match t
    case Start => Step(env, "questL12War") != -1
    case OutfitHippy => HippyOutfit(env) || skip
    case OutfitFrat => FratOutfit(env) || skip
    case Enrage => Step(env, "questL12War") >= 1
    case FlyersStart => Have(env, "rock band flyers") || SidequestDone(env, "Arena") || skip
    case FlyersEnd => SidequestDone(env, "Arena") || skip
    case Lighthouse =>
      GunpowderDone(env) || !Have(env, "backup camera") || !Have(env, "Fourth of May Cosplay Saber") || skip
    case LighthouseBasic => GunpowderDone(env) || skip
    case LighthouseEnd => SidequestDone(env, "Lighthouse") || skip
    case JunkyardStart => Have(env, "molybdenum magnet") || SidequestDone(env, "Junkyard") || skip
    case JunkyardHammer => Have(env, "molybdenum hammer") || SidequestDone(env, "Junkyard") || skip
    case JunkyardWrench => Have(env, "molybdenum crescent wrench") || SidequestDone(env, "Junkyard") || skip
    case JunkyardPliers => Have(env, "molybdenum pliers") || SidequestDone(env, "Junkyard") || skip
    case JunkyardScrewdriver => Have(env, "molybdenum screwdriver") || SidequestDone(env, "Junkyard") || skip
    case JunkyardEnd => SidequestDone(env, "Junkyard") || skip
    case OpenOrchard => Count(env, "hippiesDefeated") >= 64 || skip
    case OrchardHatching => OrchardStageDone(env, 0) || SidequestDone(env, "Orchard") || skip
    case OrchardFeeding => OrchardStageDone(env, 1) || SidequestDone(env, "Orchard") || skip
    case OrchardGuard => OrchardStageDone(env, 2) || SidequestDone(env, "Orchard") || skip
    case OrchardQueen => OrchardStageDone(env, 3) || SidequestDone(env, "Orchard") || skip
    case OrchardFinish => SidequestDone(env, "Orchard") || skip
    case OpenNuns => Count(env, "hippiesDefeated") >= 192 || skip
    case Nuns => SidequestDone(env, "Nuns") || skip
    case Clear => Count(env, "hippiesDefeated") >= 1000 || skip
    case Fluffers =>
      Count(env, "hippiesDefeated") >= 1000 || Count(env, "fratboysDefeated") >= 1000 || !args.delaywar
    case BossHippie => Step(env, "questL12War") == 999
  }

  /** The council visit, the enraging, the fluffers and the boss are the tasks the skip does not reach. */
  predicate Skippable(t: WarTask)
  {
    t != Start && t != Enrage && t != Fluffers && t != BossHippie
  }

  /** When the war is skipped, every sidequest, outfit and battlefield task is complete. */
  lemma SkipCompletes(t: WarTask, args: Args, env: Env)
    requires Skippable(t) && WarSkip(args, env)
    ensures Completed(t, args, env)
  {
  }

  /**
   * The skip does not reach the other four: with the war delayed and not yet
   * started, none of them is done.
   */
  lemma SkipLeavesWar(args: Args, env: Env)
    requires args.delaywar && Step(env, "questL12War") == -1
    requires Count(env, "hippiesDefeated") < 1000 && Count(env, "fratboysDefeated") < 1000
    ensures WarSkip(args, env)
    ensures forall t :: !Skippable(t) ==> !Completed(t, args, env)
  {
  }

  /** The `ready` condition of each war task; a task without one is always ready. */
  predicate Ready(t: WarTask, args: Args, env: Env)
  {
    match t
    case Start => AtLevel(env, 12) && CouncilSafe(args, env)
    case FlyersEnd => FlyersDone(env)
    case Enrage => WarReady(args, env)
    case Lighthouse => Step(env, "questL04Bat") >= 3 || Have(env, "Fourth of May Cosplay Saber")
    case BossHippie => WarReady(args, env)
    case _ => true
  }

  /** At level 12 with the war not delayed, the council visit waits for a complete war outfit. */
  lemma StartWaitsForOutfit(args: Args, env: Env)
    requires !args.delaywar && AtLevel(env, 12)
    ensures Ready(Start, args, env) <==> HippyOutfit(env) || FratOutfit(env)
  {
  }

  /** "Flyers End" is ready exactly when the flyers are done, and a correction makes it wait again. */
  lemma FlyersEndGated(args: Args, env: Env)
    ensures Ready(FlyersEnd, args, env) <==> Count(env, "flyeredML") >= 10000
    ensures Ready(FlyersEnd, args, env) ==> !Ready(FlyersEnd, args, FlyersCorrected(env))
  {
    if Ready(FlyersEnd, args, env) {
      CorrectionRearms(env);
    }
  }
}
