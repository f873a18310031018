/**
 * Score keeping for one game session, with a high score per scene kept in
 * the persistent preferences under `"HighScore_" + sceneName`. Scores are
 * C# `int`s: additions and subtractions wrap around at 32 bits.
 */
module Scores {

  type Int32 = x: int | -0x8000_0000 <= x < 0x8000_0000

  /** Two's-complement wrap-around of unchecked 32-bit arithmetic. */
  function Wrap32(x: int): (r: Int32)
    ensures (r - x) % 0x1_0000_0000 == 0
    ensures -0x8000_0000 <= x < 0x8000_0000 ==> r == x
  {
    var m := x % 0x1_0000_0000;
    if m >= 0x8000_0000 then m - 0x1_0000_0000 else m
  }

  /** The integer entries of the persistent preferences. */
  type Prefs = map<string, Int32>

  function HighScoreKey(scene: string): string {
    "HighScore_" + scene
  }

  /** Each scene has its own key. */
  lemma HighScoreKeyInjective(a: string, b: string)
    ensures HighScoreKey(a) == HighScoreKey(b) ==> a == b
  {
    if HighScoreKey(a) == HighScoreKey(b) {
      assert a == HighScoreKey(a)[10..];
      assert b == HighScoreKey(b)[10..];
    }
  }

  /** The `HighScore` getter: the stored value, or 0 when there is none. */
  function StoredHighScore(prefs: Prefs, scene: string): Int32 {
    var key := HighScoreKey(scene);
    if key in prefs then prefs[key] else 0
  }

  /** The `HighScore` setter. */
  function StoreHighScore(prefs: Prefs, scene: string, value: Int32): Prefs {
    prefs[HighScoreKey(scene) := value]
  }

  /** The preferences after the `Score` setter assigns `value`. */
  function AssignScore(prefs: Prefs, scene: string, value: Int32): Prefs {
    if value > StoredHighScore(prefs, scene) then StoreHighScore(prefs, scene, value) else prefs
  }

  /** Writing one scene's high score leaves every other scene's as it was. */
  lemma StoreHighScoreOthers(prefs: Prefs, scene: string, value: Int32, other: string)
    ensures StoredHighScore(StoreHighScore(prefs, scene, value), scene) == value
    ensures other != scene ==>
      StoredHighScore(StoreHighScore(prefs, scene, value), other) == StoredHighScore(prefs, other)
  {
    HighScoreKeyInjective(scene, other);
  }

  /**
   * Assigning a score raises the scene's high score to it exactly when it
   * is larger, so the high score never falls and is at least the score;
   * no other scene's high score changes.
   */
  lemma AssignScoreHighScore(prefs: Prefs, scene: string, value: Int32, other: string)
    ensures var hs := StoredHighScore(AssignScore(prefs, scene, value), scene);
      hs >= StoredHighScore(prefs, scene) && hs >= value
      && (hs != StoredHighScore(prefs, scene) <==> value > StoredHighScore(prefs, scene))
      && (value > StoredHighScore(prefs, scene) ==> hs == value)
    ensures other != scene ==>
      StoredHighScore(AssignScore(prefs, scene, value), other) == StoredHighScore(prefs, other)
  {
    StoreHighScoreOthers(prefs, scene, value, other);
  }

  /** The session's score together with the preferences. */
  datatype Board = Board(score: Int32, prefs: Prefs)

  /** `AddScore`, `RemoveScore` and `ResetScore`. */
  datatype ScoreOp = Add(points: Int32) | Remove(points: Int32) | Reset

  /** The `Score` setter. */
  function Assign(b: Board, scene: string, value: Int32): Board {
    Board(value, AssignScore(b.prefs, scene, value))
  }

  /** The score an operation assigns through the setter. */
  function Target(b: Board, op: ScoreOp): Int32 {
    match op
    case Add(p) => Wrap32(b.score + p)
    case Remove(p) => Wrap32(b.score - p)
    case Reset => 0
  }

  function Apply(b: Board, scene: string, op: ScoreOp): Board {
    Assign(b, scene, Target(b, op))
  }

  /** The operations applied in order, all in one scene. */
  function Run(b: Board, scene: string, ops: seq<ScoreOp>): Board
    decreases |ops|
  {
    if ops == [] then b else Run(Apply(b, scene, ops[0]), scene, ops[1..])
  }

  /** Adding and removing points move the score by exactly that much, short of overflow. */
  lemma TargetArithmetic(b: Board, op: ScoreOp)
    ensures op.Add? && -0x8000_0000 <= b.score + op.points < 0x8000_0000 ==> Target(b, op) == b.score + op.points
    ensures op.Remove? && -0x8000_0000 <= b.score - op.points < 0x8000_0000 ==> Target(b, op) == b.score - op.points
    ensures op.Reset? ==> Target(b, op) == 0
  {
  }

  /**
   * Removing points while the score is at most the high score never
   * raises the high score (short of overflow).
   */
  lemma RemoveKeepsHighScore(b: Board, scene: string, p: Int32)
    requires 0 <= p && b.score <= StoredHighScore(b.prefs, scene)
    requires b.score - p >= -0x8000_0000
    ensures Apply(b, scene, Remove(p)).prefs == b.prefs
    ensures Apply(b, scene, Remove(p)).score == b.score - p
  {
  }

  /** Unchecked wrap-around: removing 1 from the least `int` gives the greatest, a new high score. */
  lemma RemoveWrapsAround(prefs: Prefs, scene: string)
    ensures var b := Apply(Board(-0x8000_0000, prefs), scene, Remove(1));
      b.score == 0x7fff_ffff && StoredHighScore(b.prefs, scene) == 0x7fff_ffff
  {
    AssignScoreHighScore(prefs, scene, 0x7fff_ffff, scene);
  }

  /** Resetting sets the score to 0 and never lowers the high score. */
  lemma ResetKeepsHighScore(b: Board, scene: string)
    ensures Apply(b, scene, Reset).score == 0
    ensures StoredHighScore(Apply(b, scene, Reset).prefs, scene) >= StoredHighScore(b.prefs, scene)
  {
    AssignScoreHighScore(b.prefs, scene, 0, scene);
  }

  /**
   * Over any run of operations in one scene the high score never falls,
   * ends at least the final score (once a score was assigned), and the
   * other scenes' high scores stay as they were.
   */
  lemma {:induction false} RunHighScore(b: Board, scene: string, ops: seq<ScoreOp>, other: string)
    ensures StoredHighScore(Run(b, scene, ops).prefs, scene) >= StoredHighScore(b.prefs, scene)
    ensures ops != [] ==> StoredHighScore(Run(b, scene, ops).prefs, scene) >= Run(b, scene, ops).score
    ensures other != scene ==>
      StoredHighScore(Run(b, scene, ops).prefs, other) == StoredHighScore(b.prefs, other)
    decreases |ops|
  {
    if ops != [] {
      var b1 := Apply(b, scene, ops[0]);
      AssignScoreHighScore(b.prefs, scene, Target(b, ops[0]), other);
      RunHighScore(b1, scene, ops[1..], other);
      if ops[1..] == [] {
        assert Run(b1, scene, ops[1..]) == b1;
      }
    }
  }

  /** A stored high score never goes below the default 0. */
  lemma {:induction false} RunHighScoreNonNegative(b: Board, scene: string, ops: seq<ScoreOp>)
    requires StoredHighScore(b.prefs, scene) >= 0
    ensures StoredHighScore(Run(b, scene, ops).prefs, scene) >= 0
  {
    RunHighScore(b, scene, ops, scene);
  }

  class ScoreManager {
    var score: Int32
    var prefs: Prefs

    function State(): Board
      reads this
    {
      Board(score, prefs)
    }

    /** `scene` is the current scene's name. */
    function HighScore(scene: string): Int32
      reads this
    {
      StoredHighScore(prefs, scene)
    }

    constructor(prefs: Prefs)
      ensures score == 0 && this.prefs == prefs
    {
      score := 0;
      this.prefs := prefs;
    }

    method SetHighScore(scene: string, value: Int32)
      modifies this`prefs
      ensures prefs == StoreHighScore(old(prefs), scene, value)
    {
      prefs := prefs[HighScoreKey(scene) := value];
    }

    /** The `Score` setter. */
    method SetScore(scene: string, value: Int32)
      modifies this`score, this`prefs
      ensures State() == Assign(old(State()), scene, value)
      ensures score == value && HighScore(scene) >= score && HighScore(scene) >= old(HighScore(scene))
    {
      score := value;
      if score > HighScore(scene) {
        SetHighScore(scene, score);
      }
      AssignScoreHighScore(old(prefs), scene, value, scene);
    }

    method AddScore(scene: string, points: Int32)
      modifies this`score, this`prefs
      ensures State() == Apply(old(State()), scene, Add(points))
    {
      SetScore(scene, Wrap32(score + points));
    }

    method RemoveScore(scene: string, points: Int32)
      modifies this`score, this`prefs
      ensures State() == Apply(old(State()), scene, Remove(points))
    {
      SetScore(scene, Wrap32(score - points));
    }

    method ResetScore(scene: string)
      modifies this`score, this`prefs
      ensures State() == Apply(old(State()), scene, Reset)
    {
      SetScore(scene, 0);
    }
  }
}
