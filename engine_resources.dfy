/**
 * The resource catalogue of the engine (src/engine/resources.ts): the banish
 * sources with their availability, the banish state of the current game, the
 * Asdon Martin fuel rule and the void-charging / cursed-magnifying-glass pair.
 */
module EngineResources {
  import opened Wrappers
  import opened Subsequence
  import opened Game
  import opened JsText
  import opened Banish

  /** The ice house keeps its monster banished for good; it does not count as a partial banish. */
  const IceHouse := ItemBanisher("ice house")

  const BumperName := "spring-loaded front bumper"

  /** `AsdonMartin.installed()`: the Asdon Martin keyfob sits in the workshed. */
  predicate AsdonInstalled(env: Env)
  {
    env.workshed == "Asdon Martin keyfob"
  }

  /**
   * `asdonFualable(amount)`: the car is installed, the bugbear outfit pieces are
   * not needed elsewhere, the forged documents are in hand or the Black Forest
   * is far enough along, and filling `amount` fuel still leaves 1000 meat.
   */
  function AsdonFualable(env: Env, amount: int): (r: bool)
    ensures r ==> env.meat >= amount * 24 + 1000
    ensures r ==> AsdonInstalled(env) && Have(env, "bugbear bungguard") && Have(env, "bugbear beanie")
  {
    if !AsdonInstalled(env) then false
    else if !Have(env, "bugbear bungguard") || !Have(env, "bugbear beanie") then false
    else if !Have(env, "forged identification documents") && Step(env, "questL11Black") < 4 then false
    else if env.meat < amount * 24 + 1000 then false
    else true
  }

  /**
   * The Asdon bumper banish: fuel for 50 must be affordable, and the bumper
   * must be off its cooldown.
   */
  function AsdonBumperAvailable(env: Env): (r: bool)
    ensures r ==> AsdonFualable(env, 50)
  {
    if !AsdonFualable(env, 50) then false
    else BumperOffCooldown(Text(env, "banishedMonsters"), env.turncount)
  }

  /**
   * The cooldown half of the bumper rule, on the `banishedMonsters` setting: it
   * holds no bumper entry, or the field after the first one is a turn more
   * than 30 turns ago. A bumper entry with no following field, or one that is
   * not a number, reads as NaN and keeps the bumper on cooldown.
   */
  function BumperOffCooldown(banishedMonsters: string, turncount: int): bool
  {
    var banishes := Split(banishedMonsters, ':');
    var bumperIndex := IndexOf(LowerAll(banishes), BumperName);
    if bumperIndex == -1 then true
    else
      var turn := if bumperIndex + 1 < |banishes| then ParseInt(banishes[bumperIndex + 1]) else None;
      turn.Some? && turncount - turn.value > 30
  }

  /** Without a bumper entry in `banishedMonsters`, only the fuel rule decides. */
  lemma BumperUnrecorded(env: Env)
    requires forall p :: p in Split(Text(env, "banishedMonsters"), ':') ==> Lower(p) != BumperName
    ensures AsdonBumperAvailable(env) <==> AsdonFualable(env, 50)
  {
    var banishes := Split(Text(env, "banishedMonsters"), ':');
    assert BumperName !in LowerAll(banishes) by {
      forall i | 0 <= i < |banishes|
        ensures LowerAll(banishes)[i] != BumperName
      {
        assert banishes[i] in banishes;
      }
    }
  }

  /** The first bumper entry of `before + [bumper] + rest` is `bumper`. */
  lemma BumperIndex(before: seq<string>, bumper: string, rest: seq<string>)
    requires Lower(bumper) == BumperName
    requires forall i :: 0 <= i < |before| ==> Lower(before[i]) != BumperName
    ensures IndexOf(LowerAll(before + [bumper] + rest), BumperName) == |before|
  {
    assert LowerAll(before + [bumper] + rest)[|before|] == BumperName;
  }

  /** The cooldown rule once the first bumper entry has been found at field `k`. */
  lemma CooldownAt(text: string, k: nat, turncount: int)
    requires IndexOf(LowerAll(Split(text, ':')), BumperName) == k
    ensures BumperOffCooldown(text, turncount) <==>
            k + 1 < |Split(text, ':')| && ParseInt(Split(text, ':')[k + 1]).Some? &&
            turncount - ParseInt(Split(text, ':')[k + 1]).value > 30
  {
  }

  /**
   * With a bumper field followed by the turn it was used on (and no earlier
   * bumper field), the bumper is off cooldown iff more than 30 turns have
   * passed since that turn.
   */
  lemma CooldownOfTurn(text: string, before: seq<string>, bumper: string, t: nat, after: seq<string>, turncount: int)
    requires Lower(bumper) == BumperName
    requires forall i :: 0 <= i < |before| ==> Lower(before[i]) != BumperName
    requires Split(text, ':') == before + [bumper, NatToString(t)] + after
    ensures BumperOffCooldown(text, turncount) <==> turncount - t > 30
  {
    var parts := before + [bumper, NatToString(t)] + after;
    assert parts == before + [bumper] + ([NatToString(t)] + after);
    BumperIndex(before, bumper, [NatToString(t)] + after);
    CooldownAt(text, |before|, turncount);
    assert parts[|before| + 1] == NatToString(t);
    ParseIntNatToString(t, []);
    assert NatToString(t) + [] == NatToString(t);
  }

  /**
   * When the fields of `banishedMonsters` hold a bumper entry followed by the
   * turn it was used on (and no earlier bumper entry), the bumper is available
   * iff the fuel rule holds and more than 30 turns have passed since that turn.
   */
  lemma BumperCooldown(env: Env, before: seq<string>, bumper: string, t: nat, after: seq<string>)
    requires Lower(bumper) == BumperName
    requires forall i :: 0 <= i < |before| ==> Lower(before[i]) != BumperName
    requires Split(Text(env, "banishedMonsters"), ':') == before + [bumper, NatToString(t)] + after
    ensures AsdonBumperAvailable(env) <==> AsdonFualable(env, 50) && env.turncount - t > 30
  {
    CooldownOfTurn(Text(env, "banishedMonsters"), before, bumper, t, after, env.turncount);
  }

  /** A bumper entry in the last field has no turn after it: the bumper stays unavailable. */
  lemma BumperWithoutTurn(env: Env, before: seq<string>, bumper: string)
    requires Lower(bumper) == BumperName
    requires forall i :: 0 <= i < |before| ==> Lower(before[i]) != BumperName
    requires Split(Text(env, "banishedMonsters"), ':') == before + [bumper]
    ensures !AsdonBumperAvailable(env)
  {
    assert before + [bumper] == before + [bumper] + [];
    BumperIndex(before, bumper, []);
    CooldownAt(Text(env, "banishedMonsters"), |before|, env.turncount);
  }

  /** `banishSources`: the seven banish sources, in the order they are tried. */
  function Catalogue(env: Env): (c: seq<BanishSource>)
    ensures |c| == 7
    ensures forall i, j :: 0 <= i < j < |c| ==> c[i].banisher != c[j].banisher && c[i].name != c[j].name
  {
    [
      BanishSource("Bowl Curveball", Have(env, "cosmic bowling ball"), SkillBanisher("Bowl a Curveball"), None),
      BanishSource("Asdon Martin", AsdonBumperAvailable(env),
                   SkillBanisher("Asdon Martin: Spring-Loaded Front Bumper"), None),
      BanishSource("System Sweep", HaveSkill(env, "System Sweep"), SkillBanisher("System Sweep"), None),
      BanishSource("Latte",
                   (!Flag(env, "_latteBanishUsed") || Count(env, "_latteRefillsUsed") < 2) &&
                   Have(env, "latte lovers member's mug"),
                   SkillBanisher("Throw Latte on Opponent"), Some("latte lovers member's mug")),
      BanishSource("Reflex Hammer", Count(env, "_reflexHammerUsed") < 3 && Have(env, "Lil' Doctor™ bag"),
                   SkillBanisher("Reflex Hammer"), Some("Lil' Doctor™ bag")),
      BanishSource("KGB dart",
                   Count(env, "_kgbTranquilizerDartUses") < 3 && Have(env, "Kremlin's Greatest Briefcase"),
                   SkillBanisher("KGB tranquilizer dart"), Some("Kremlin's Greatest Briefcase")),
      BanishSource("Middle Finger",
                   !Flag(env, "_mafiaMiddleFingerRingUsed") && Have(env, "mafia middle finger ring"),
                   SkillBanisher("Show them your ring"), Some("mafia middle finger ring"))
    ]
  }

  /** The banishes of the current game, read once when the state is built. */
  class BanishState {
    const alreadyBanished: map<Monster, Banisher>

    /** Takes the `getBanishedMonsters()` entries, (banisher, monster) pairs in record order. */
    constructor(entries: seq<(Banisher, Monster)>)
      ensures alreadyBanished == Inverted(entries)
    {
      alreadyBanished := Inverted(entries);
    }

    /** Some banish target of the task is banished, by anything but the ice house. */
    function IsPartiallyBanished(task: Task): (r: bool)
      ensures r <==> task.banishTargets.Some? &&
                     exists m :: m in task.banishTargets.value && m in alreadyBanished && alreadyBanished[m] != IceHouse
    {
      SomeBanished(alreadyBanished, task, {IceHouse})
    }

    /** Every banish target of the task is banished; true when it has none. */
    function IsFullyBanished(task: Task): (r: bool)
      ensures r <==> forall m :: m in Targets(task) ==> m in alreadyBanished
    {
      AllBanished(alreadyBanished, task)
    }

    /**
     * Targets all banished by the ice house leave the task fully banished yet
     * not partially banished: the ice-house banish is not counted as progress.
     */
    lemma IceHouseOnly(task: Task)
      requires Targets(task) != []
      requires forall m :: m in Targets(task) ==> m in alreadyBanished && alreadyBanished[m] == IceHouse
      ensures IsFullyBanished(task) && !IsPartiallyBanished(task)
    {
    }

    /**
     * The sources still free: available, and not the banisher of a monster
     * that one of `tasks` wants banished.
     */
    method UnusedBanishes(tasks: seq<Task>, env: Env) returns (r: seq<BanishSource>)
      ensures r == Unused(Catalogue(env), UsedBanishers(alreadyBanished, tasks))
      ensures IsSubsequence(r, Catalogue(env))
      ensures forall s :: s in r <==>
        s in Catalogue(env) && s.available &&
        !exists i, j :: 0 <= i < |tasks| && tasks[i].banishTargets.Some? &&
                        0 <= j < |tasks[i].banishTargets.value| &&
                        tasks[i].banishTargets.value[j] in alreadyBanished &&
                        alreadyBanished[tasks[i].banishTargets.value[j]] == s.banisher
    {
      var used := CollectUsed(alreadyBanished, tasks);
      r := Unused(Catalogue(env), used);
      forall s: BanishSource {
        UsedBanishersMeaning(alreadyBanished, tasks, s.banisher);
      }
    }
  }

  /** Void monsters can still be charged: fewer than 13 glass charges and free fights left. */
  function CanChargeVoid(env: Env): (r: bool)
    ensures r ==> Count(env, "cursedMagnifyingGlassCount") < 13
  {
    Count(env, "_voidFreeFights") < 5 && Count(env, "cursedMagnifyingGlassCount") < 13
  }

  /** The cursed magnifying glass wanderer is due: the glass is charged to 13 and free fights remain. */
  function MagnifyingGlassAvailable(env: Env): (r: bool)
    ensures r ==> Count(env, "cursedMagnifyingGlassCount") >= 13
  {
    Have(env, "cursed magnifying glass") && Count(env, "_voidFreeFights") < 5 &&
    Count(env, "cursedMagnifyingGlassCount") >= 13
  }

  /** Charging the glass and fighting its wanderer never compete for the same turn. */
  lemma ChargeOrFight(env: Env)
    ensures !(CanChargeVoid(env) && MagnifyingGlassAvailable(env))
    ensures Have(env, "cursed magnifying glass") && Count(env, "_voidFreeFights") < 5 ==>
            CanChargeVoid(env) != MagnifyingGlassAvailable(env)
  {
  }
}
