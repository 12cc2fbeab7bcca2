/**
 * The life and wave tracker (`LevelManager` in Code/LevelManager.cs):
 * `Start` sets the lives and the first wave, and every enemy that reaches
 * the end takes one life, clamped at zero, calling `GameOver` each time the
 * count is at or below zero after the decrement.
 */
module Level {

  /** C#'s `int`. */
  newtype int32 = x: int | -0x8000_0000 <= x < 0x8000_0000

  /**
   * `x--` on a C# `int` in an unchecked context: the one 32-bit value that is
   * congruent to `x - 1` modulo 2^32, so the smallest value wraps to the largest.
   */
  function Decrement(x: int32): (r: int32)
    ensures (r as int - (x as int - 1)) % 0x1_0000_0000 == 0
    ensures x > -0x8000_0000 ==> r as int == x as int - 1
    ensures x == -0x8000_0000 ==> r == 0x7fff_ffff
  {
    if x == -0x8000_0000 then 0x7fff_ffff else x - 1
  }

  /** What one `ReduceLives` call leaves: the new life count and whether `GameOver` was called. */
  datatype Reduction = Reduction(lives: int32, gameOver: bool)

  /**
   * One `ReduceLives` on a count of `lives`. The count never ends negative, a
   * count of at least one goes down by exactly one, and `GameOver` is called
   * exactly when the count ends at zero — also when it was zero already.
   */
  function Reduce(lives: int32): (r: Reduction)
    ensures r.lives >= 0
    ensures lives >= 1 ==> r.lives == lives - 1
    ensures r.gameOver <==> r.lives == 0
    ensures lives <= 0 && lives > -0x8000_0000 ==> r.gameOver
    ensures lives == -0x8000_0000 ==> r == Reduction(0x7fff_ffff, false)
  {
    var d := Decrement(lives);
    if d <= 0 then Reduction(0, true) else Reduction(d, false)
  }

  /** The life count and the number of `GameOver` calls after `n` successive end-reaches. */
  function ReduceTimes(lives: int32, n: nat): (int32, nat)
    decreases n
  {
    if n == 0 then (lives, 0)
    else
      var r := Reduce(lives);
      var (after, calls) := ReduceTimes(r.lives, n - 1);
      (after, calls + if r.gameOver then 1 else 0)
  }

  /**
   * From a non-negative count `L`, `n` end-reaches leave `max(0, L - n)`
   * lives, and `GameOver` is called once for every end-reach from the one
   * that takes the last life on: `n - L + 1` times once `n >= L >= 1`, and
   * `n` times from zero. There is no once-only guard.
   */
  lemma {:induction false} ReduceTimesClosedForm(lives: int32, n: nat)
    requires lives >= 0
    ensures ReduceTimes(lives, n).0 as int == if lives as int >= n then lives as int - n else 0
    ensures ReduceTimes(lives, n).1 ==
      if lives == 0 then n
      else if n >= lives as int then n - lives as int + 1
      else 0
  {
    if n > 0 {
      ReduceTimesClosedForm(Reduce(lives).lives, n - 1);
    }
  }

  class LevelManager {
    /** The serialized `lives`. */
    const lives: int32
    var TotalLives: int32
    var CurrentWave: int32
    /** How many times `GameOver` has been called. */
    var gameOverCalls: nat

    /** The component as created, before `Start`; C# fields start at zero. */
    constructor (lives: int32)
      ensures this.lives == lives
      ensures TotalLives == 0 && CurrentWave == 0 && gameOverCalls == 0
    {
      this.lives := lives;
      TotalLives := 0;
      CurrentWave := 0;
      gameOverCalls := 0;
    }

    /** `Start`: all lives and the first wave. */
    method Start()
      modifies this`TotalLives, this`CurrentWave
      ensures TotalLives == lives && CurrentWave == 1
    {
      TotalLives := lives;
      CurrentWave := 1;
    }

    /**
     * `ReduceLives`, subscribed to the end-reached event: one life less,
     * clamped at zero, with a `GameOver` call whenever the decremented count
     * is not positive. The wave is left as it is.
     */
    method ReduceLives()
      modifies this`TotalLives, this`gameOverCalls
      ensures TotalLives == Reduce(old(TotalLives)).lives
      ensures gameOverCalls == old(gameOverCalls) + if Reduce(old(TotalLives)).gameOver then 1 else 0
      ensures TotalLives >= 0
      ensures old(TotalLives) >= 1 ==> TotalLives == old(TotalLives) - 1
    {
      TotalLives := Decrement(TotalLives);
      if TotalLives <= 0 {
        TotalLives := 0;
        GameOver();
      }
    }

    /** `GameOver`: an empty stub in the game; here each call is counted. */
    method GameOver()
      modifies this`gameOverCalls
      ensures gameOverCalls == old(gameOverCalls) + 1
    {
      gameOverCalls := gameOverCalls + 1;
    }
  }
}
