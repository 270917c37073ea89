/**
 * Parts of the level-11 quest (src/tasks/level11.ts): the rotation of the
 * ancient pyramid's control room, the `gnasirProgress` bitmask tests of the
 * desert tasks, and the number of milestones "Finish with Milestones" buys
 * and uses.
 */
module Macguffin {
  import opened Wrappers
  import opened Game

  // ---------------------------------------------------------------------------
  // JavaScript arithmetic

  /** JavaScript's `a % b` for a positive divisor: the remainder takes the sign of the dividend. */
  function JsRem(a: int, b: int): (r: int)
    requires b > 0
    ensures a >= 0 ==> 0 <= r < b
    ensures a < 0 ==> -b < r <= 0
  {
    if a >= 0 then a % b else -((-a) % b)
  }

  /** `Math.ceil(a / b)` for a positive divisor: the least `r` with `r * b >= a`. */
  function CeilDiv(a: int, b: int): (r: int)
    requires b > 0
    ensures r * b >= a
    ensures (r - 1) * b < a
  {
    -((-a) / b)
  }

  function Pow2(k: nat): (p: nat)
    ensures p >= 1
  {
    if k == 0 then 1 else 2 * Pow2(k - 1)
  }

  /** Bit `k` of a natural number, least significant first. */
  predicate Bit(x: nat, k: nat)
  {
    if k == 0 then x % 2 == 1 else Bit(x / 2, k - 1)
  }

  /** The bitwise and of two naturals. */
  function AndNat(a: nat, b: nat): nat
  {
    if a == 0 || b == 0 then 0
    else 2 * AndNat(a / 2, b / 2) + (if a % 2 == 1 && b % 2 == 1 then 1 else 0)
  }

  const TwoTo32 := 0x1_0000_0000

  /** ToUint32: the 32-bit pattern of an integer. */
  function ToUint32(n: int): (u: nat)
    ensures u < TwoTo32
  {
    n % TwoTo32
  }

  /** ToInt32 of a 32-bit pattern: the top bit is the sign. */
  function ToInt32(u: nat): int
    requires u < TwoTo32
  {
    if u < 0x8000_0000 then u else u - TwoTo32
  }

  /** JavaScript's `a & b`: both operands are cut to 32 bits, and the result is signed. */
  function JsAnd(a: int, b: int): int
  {
    var u := AndNat(ToUint32(a), ToUint32(b));
    Pow2At32();
    AndBound(ToUint32(a), ToUint32(b), 32);
    ToInt32(u)
  }

  /** The and of two numbers below 2^k stays below 2^k. */
  lemma {:induction false} AndBound(a: nat, b: nat, k: nat)
    requires a < Pow2(k) && b < Pow2(k)
    ensures AndNat(a, b) < Pow2(k)
    ensures k == 32 ==> AndNat(a, b) < TwoTo32
  {
    if k == 32 {
      Pow2At32();
    }
    if a != 0 && b != 0 {
      assert k > 0;
      AndBound(a / 2, b / 2, k - 1);
    }
  }

  lemma Pow2At32()
    ensures Pow2(32) == TwoTo32
    ensures Pow2(31) == 0x8000_0000
  {
    assert Pow2(8) == 256;
    assert Pow2(16) == 65536;
    assert Pow2(24) == 16777216;
  }

  /** Anding with a single bit leaves that bit of the other operand and clears the rest. */
  lemma {:induction false} AndPow2(x: nat, k: nat)
    ensures AndNat(x, Pow2(k)) == if Bit(x, k) then Pow2(k) else 0
  {
    if k == 0 {
      assert AndNat(x / 2, 0) == 0;
    } else {
      AndPow2(x / 2, k - 1);
      assert Pow2(k) / 2 == Pow2(k - 1);
      assert Pow2(k) % 2 == 0;
    }
  }

  /**
   * `(n & m) > 0` with a one-bit mask below the sign bit holds exactly when
   * that bit of n's 32-bit pattern is set, and `(n & m) === 0` otherwise.
   */
  lemma MaskTest(n: int, k: nat)
    requires k < 31
    ensures JsAnd(n, Pow2(k)) > 0 <==> Bit(ToUint32(n), k)
    ensures JsAnd(n, Pow2(k)) == 0 <==> !Bit(ToUint32(n), k)
  {
    Pow2At32();
    Pow2Monotone(k, 31);
    assert ToUint32(Pow2(k)) == Pow2(k);
    AndPow2(ToUint32(n), k);
  }

  lemma {:induction false} Pow2Monotone(j: nat, k: nat)
    requires j <= k
    ensures Pow2(j) <= Pow2(k)
    ensures j < k ==> Pow2(j) < Pow2(k)
    decreases k
  {
    if j < k {
      Pow2Monotone(j, k - 1);
    }
  }

  // ---------------------------------------------------------------------------
  // The pyramid control room

  /** The pyramid position with the tomb ratchets and crumbling wooden wheels in hand. */
  datatype Control = Control(position: int, ratchets: int, wheels: int)

  /** The game turns the pyramid one step through positions 1 to 5. */
  function Advance(position: int): int
  {
    position % 5 + 1
  }

  /**
   * The game's answer to a control-room choice: option 1 spends a wheel and
   * option 2 a ratchet, and either turns the pyramid one step when the item is
   * held; without the item nothing happens.
   */
  function Chosen(c: Control, option: int): Control
  {
    if option == 1 && c.wheels >= 1 then Control(Advance(c.position), c.ratchets, c.wheels - 1)
    else if option == 2 && c.ratchets >= 1 then Control(Advance(c.position), c.ratchets - 1, c.wheels)
    else c
  }

  /** One pass of the rotation loop: the wheel option while a wheel is held, the ratchet option otherwise. */
  function Turn(c: Control): Control
  {
    Chosen(c, if c.wheels >= 1 then 1 else 2)
  }

  /** `n` passes of the rotation loop; a loop bound of zero or less runs no pass. */
  function Turns(c: Control, n: int): Control
    decreases n
  {
    if n <= 0 then c else Turn(Turns(c, n - 1))
  }

  /** The number of turns from `position` to `goal`, `(goal - position + 5) % 5`. */
  function TurnsNeeded(goal: int, position: int): (n: int)
    ensures 1 <= goal <= 5 && 1 <= position <= 5 ==> 0 <= n <= 4 && (position - 1 + n) % 5 == goal - 1
  {
    JsRem(goal - position + 5, 5)
  }

  /** The inventory after buying the ratchets the rotation lacks; nothing is bought when enough is held. */
  function Stocked(c: Control, goal: int): (s: Control)
    ensures s.position == c.position && s.wheels == c.wheels && s.ratchets >= c.ratchets
    ensures s.ratchets + s.wheels >= TurnsNeeded(goal, c.position)
    ensures c.ratchets + c.wheels >= TurnsNeeded(goal, c.position) ==> s == c
  {
    var toBuy := TurnsNeeded(goal, c.position) - c.ratchets - c.wheels;
    if toBuy > 0 then c.(ratchets := c.ratchets + toBuy) else c
  }

  /** The state `rotatePyramid(goal)` leaves behind: stock up, then turn `TurnsNeeded` times. */
  function Rotated(c: Control, goal: int): Control
  {
    Turns(Stocked(c, goal), TurnsNeeded(goal, c.position))
  }

  /** One more step from `x % 5 + 1` lands on `(x + 1) % 5 + 1`. */
  lemma AdvanceMod(x: int)
    ensures Advance(x % 5 + 1) == (x + 1) % 5 + 1
  {
    var q, r := x / 5, x % 5;
    assert x == 5 * q + r;
    if r == 4 {
      assert x + 1 == 5 * (q + 1);
    } else {
      assert x + 1 == 5 * q + (r + 1);
    }
  }

  /**
   * Turning `n` steps from a position in 1..5 lands on
   * `(position - 1 + n) % 5 + 1`, spending wheels before ratchets.
   */
  lemma {:induction false} TurnsAdvance(c: Control, n: nat)
    requires 1 <= c.position <= 5
    requires c.ratchets >= 0 && c.wheels >= 0 && n <= c.ratchets + c.wheels
    ensures Turns(c, n).position == (c.position - 1 + n) % 5 + 1
    ensures Turns(c, n).wheels == if n <= c.wheels then c.wheels - n else 0
    ensures Turns(c, n).ratchets == if n <= c.wheels then c.ratchets else c.ratchets - (n - c.wheels)
  {
    if n == 0 {
      assert (c.position - 1) % 5 == c.position - 1;
    } else {
      TurnsAdvance(c, n - 1);
      var prev := Turns(c, n - 1);
      assert prev.wheels >= 1 || prev.ratchets >= 1;
      assert Turns(c, n) == Turn(prev);
      AdvanceMod(c.position - 1 + (n - 1));
    }
  }

  /**
   * From a position in 1..5 to a goal in 1..5, the rotation reaches the goal,
   * spending wheels before ratchets and exactly `TurnsNeeded` items in all.
   */
  lemma RotationReachesGoal(c: Control, goal: int)
    requires 1 <= goal <= 5 && 1 <= c.position <= 5
    requires c.ratchets >= 0 && c.wheels >= 0
    ensures Rotated(c, goal).position == goal
    ensures Rotated(c, goal).ratchets + Rotated(c, goal).wheels ==
            Stocked(c, goal).ratchets + c.wheels - TurnsNeeded(goal, c.position)
    ensures TurnsNeeded(goal, c.position) <= c.wheels ==> Rotated(c, goal).ratchets == Stocked(c, goal).ratchets
  {
    var n := TurnsNeeded(goal, c.position);
    var s := Stocked(c, goal);
    assert 0 <= n <= 4 && (c.position - 1 + n) % 5 == goal - 1;
    TurnsAdvance(s, n);
    assert Rotated(c, goal) == Turns(s, n);
  }

  /**
   * A recorded position more than five past the goal makes the remainder
   * negative: nothing is bought, the loop does not run, and the rotation
   * fails.
   */
  lemma StrayPositionFails(c: Control, goal: int)
    requires c.position > goal + 5 && c.ratchets >= 0 && c.wheels >= 0
    ensures Rotated(c, goal) == c
    ensures Rotated(c, goal).position != goal
  {
  }

  datatype RotationError = FailedToRotate(goal: int)

  /** The pyramid state in the game, which the control room changes in place. */
  class Pyramid {
    var position: int
    var ratchets: int
    var wheels: int

    constructor(c: Control)
      ensures State() == c
    {
      position := c.position;
      ratchets := c.ratchets;
      wheels := c.wheels;
    }

    function State(): Control
      reads this
    {
      Control(position, ratchets, wheels)
    }

    /** `buy($item\`tomb ratchet\`, n)`, assumed to deliver. */
    method Buy(n: int)
      modifies this
      ensures State() == old(State()).(ratchets := old(ratchets) + n)
    {
      ratchets := ratchets + n;
    }

    /** A control-room choice, answered as the game does. */
    method Choose(option: int)
      modifies this
      ensures State() == Chosen(old(State()), option)
    {
      if option == 1 && wheels >= 1 {
        position := Advance(position);
        wheels := wheels - 1;
      } else if option == 2 && ratchets >= 1 {
        position := Advance(position);
        ratchets := ratchets - 1;
      }
    }

    /**
     * `rotatePyramid(goal)`: buy the missing ratchets, turn the pyramid
     * `(goal - position + 5) % 5` times, and fail when it does not stand at
     * the goal afterwards.
     */
    method RotatePyramid(goal: int) returns (r: Result<(), RotationError>)
      modifies this
      ensures State() == Rotated(old(State()), goal)
      ensures r.Failure? <==> position != goal
      ensures r.Failure? ==> r.error == FailedToRotate(goal)
    {
      var start := State();
      var turns := JsRem(goal - position + 5, 5);
      var toBuy := turns - ratchets - wheels;
      if toBuy > 0 {
        Buy(toBuy);
      }
      assert State() == Stocked(start, goal);
      var i := 0;
      while i < turns
        invariant turns <= 0 ==> i == 0
        invariant turns > 0 ==> 0 <= i <= turns
        invariant State() == Turns(Stocked(start, goal), i)
      {
        if wheels >= 1 {
          Choose(1);
        } else {
          Choose(2);
        }
        i := i + 1;
      }
      if position != goal {
        return Failure(FailedToRotate(goal));
      }
      return Success(());
    }
  }

  /** From positions and goals in 1..5 the rotation never fails. */
  method RotateWithinRange(p: Pyramid, goal: int) returns (r: Result<(), RotationError>)
    requires 1 <= goal <= 5 && 1 <= p.position <= 5 && p.ratchets >= 0 && p.wheels >= 0
    modifies p
    ensures r.Success? && p.position == goal
  {
    RotationReachesGoal(p.State(), goal);
    r := p.RotatePyramid(goal);
  }

  // ---------------------------------------------------------------------------
  // Gnasir and the desert

  const Pages := "worm-riding manual page"

  function GnasirProgress(env: Env): int
  {
    Count(env, "gnasirProgress")
  }

  /** The items Gnasir takes, each with the bit of `gnasirProgress` that records it. */
  const GnasirItems: seq<(string, nat)> := [("can of black paint", 1), ("killing jar", 2), ("drum machine", 4)]

  /** An acquire entry of "Gnasir Turn-in" is useful while its bit is clear: `(gnasirProgress & mask) === 0`. */
  predicate Useful(env: Env, bit: nat)
  {
    JsAnd(GnasirProgress(env), Pow2(bit)) == 0
  }

  /** Both the black paint and the killing jar have been handed over. */
  predicate PaintAndJarGiven(env: Env)
  {
    JsAnd(GnasirProgress(env), 2) > 0 && JsAnd(GnasirProgress(env), 4) > 0
  }

  /** The `completed` condition of "Gnasir Turn-in". */
  predicate TurnInCompleted(env: Env)
  {
    (ItemAmount(env, Pages) < 15 && PaintAndJarGiven(env)) || Count(env, "desertExploration") >= 100
  }

  /** The `ready` condition of "Finish with Milestones". */
  predicate FinishReady(env: Env)
  {
    PaintAndJarGiven(env)
  }

  /** The `completed` condition of "Finish with Milestones". */
  predicate FinishCompleted(args: Args, env: Env)
  {
    !args.milestones || Count(env, "desertExploration") >= 100
  }

  /** Each Gnasir item is useful exactly while its bit of the 32-bit progress pattern is clear. */
  lemma UsefulMeaning(env: Env, i: nat)
    requires i < |GnasirItems|
    ensures Useful(env, GnasirItems[i].1) <==> !Bit(ToUint32(GnasirProgress(env)), GnasirItems[i].1)
  {
    MaskTest(GnasirProgress(env), GnasirItems[i].1);
  }

  /**
   * "Gnasir Turn-in" is complete iff the desert is explored, or fewer than 15
   * manual pages are held and bits 1 and 2 (the masks 2 and 4) are set.
   */
  lemma TurnInMeaning(env: Env)
    ensures TurnInCompleted(env) <==>
            Count(env, "desertExploration") >= 100 ||
            (ItemAmount(env, Pages) < 15 && Bit(ToUint32(GnasirProgress(env)), 1) &&
             Bit(ToUint32(GnasirProgress(env)), 2))
  {
    MaskTest(GnasirProgress(env), 1);
    MaskTest(GnasirProgress(env), 2);
  }

  /**
   * "Finish with Milestones" is ready exactly when neither the paint nor the
   * jar is still useful, and then, with fewer than 15 pages, the turn-in is
   * complete too; the drum machine plays no part.
   */
  lemma FinishAfterTurnIn(env: Env)
    ensures FinishReady(env) <==> !Useful(env, 1) && !Useful(env, 2)
    ensures FinishReady(env) && ItemAmount(env, Pages) < 15 ==> TurnInCompleted(env)
  {
    MaskTest(GnasirProgress(env), 1);
    MaskTest(GnasirProgress(env), 2);
  }

  /**
   * The milestones "Finish with Milestones" both acquires and uses:
   * `20 - Math.ceil(desertExploration / 5)`.
   */
  function MilestoneCount(exploration: int): (n: int)
    ensures 0 <= exploration <= 100 ==> 0 <= n <= 20
  {
    20 - CeilDiv(exploration, 5)
  }

  /**
   * At five points of exploration per milestone the count brings the desert
   * to above 95 and at most 100, reaching exactly 100 when the exploration is
   * a multiple of five and stopping short of it otherwise.
   */
  lemma MilestonesReach(exploration: int)
    requires 0 <= exploration <= 100
    ensures 95 < exploration + 5 * MilestoneCount(exploration) <= 100
    ensures exploration + 5 * MilestoneCount(exploration) == 100 <==> exploration % 5 == 0
  {
  }
}
