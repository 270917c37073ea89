/**
 * The game environment every predicate of the script reads: an abstract record
 * of named integer, boolean and text settings, inventory amounts and a few
 * character counters. The script never reads ambient state in this model: every
 * predicate takes the environment as a parameter.
 */
module Game {

  datatype Env = Env(
    counters: map<string, int>,   // numeric preferences, e.g. "flyeredML", "gnasirProgress"
    flags: map<string, bool>,     // boolean preferences, e.g. "_latteBanishUsed"
    texts: map<string, string>,   // text preferences, e.g. "sidequestArenaCompleted"
    steps: map<string, int>,      // quest steps: -1 unstarted, 0 started, n step n, 999 finished
    items: map<string, int>,      // inventory amounts
    effects: set<string>,         // active effects
    skills: set<string>,          // known skills
    workshed: string,             // the item installed in the workshed, "" when none
    level: int,
    turncount: int,
    meat: int
  )

  /** Command-line arguments of the script that the modelled predicates consult. */
  datatype Args = Args(delaywar: bool, milestones: bool)

  /** A numeric preference; an unset preference reads as 0. */
  function Count(env: Env, key: string): int
  {
    if key in env.counters then env.counters[key] else 0
  }

  /** A boolean preference; an unset preference reads as false. */
  function Flag(env: Env, key: string): bool
  {
    key in env.flags && env.flags[key]
  }

  /** A text preference; an unset preference reads as the empty string. */
  function Text(env: Env, key: string): string
  {
    if key in env.texts then env.texts[key] else ""
  }

  /** The step of a quest; a quest without a recorded step is unstarted (-1). */
  function Step(env: Env, quest: string): int
  {
    if quest in env.steps then env.steps[quest] else -1
  }

  function ItemAmount(env: Env, item: string): int
  {
    if item in env.items then env.items[item] else 0
  }

  predicate Have(env: Env, item: string)
  {
    ItemAmount(env, item) >= 1
  }

  predicate HaveEffect(env: Env, effect: string)
  {
    effect in env.effects
  }

  predicate HaveSkill(env: Env, skill: string)
  {
    skill in env.skills
  }

  predicate AtLevel(env: Env, n: int)
  {
    env.level >= n
  }
}
