/**
 * The decision script PythonAI/bot_model.py: `decide_action`, which dodges a
 * threatening bullet or else chases the player along the dominant axis, and
 * the script's entry point with its argument-count guard.
 */
module BotModel {
  import opened Wrappers
  import opened Collision

  /** The decoded JSON argument: `player`, `enemy` and the `bullets` entry, which may be missing. */
  datatype GameState = GameState(player: Point, enemy: Point, bullets: Option<seq<Point>>)

  function Abs(v: real): (r: real)
    ensures r >= 0.0 && (r == v || r == -v)
  {
    if v < 0.0 then -v else v
  }

  /** `state.get('bullets', [])`. */
  function BulletsOf(s: GameState): seq<Point>
  {
    match s.bullets
    case None => []
    case Some(bs) => bs
  }

  /** A bullet close to the enemy's row, less than 200 units away and to its left. */
  predicate Threatening(b: Point, enemy: Point)
  {
    Abs(b.y - enemy.y) < 30.0 && Abs(b.x - enemy.x) < 200.0 && b.x < enemy.x
  }

  /** The dodging scan: does some bullet in the list threaten the enemy? */
  function AnyThreat(bs: seq<Point>, enemy: Point): (r: bool)
    ensures r <==> exists i :: 0 <= i < |bs| && Threatening(bs[i], enemy)
  {
    if bs == [] then false
    else Threatening(bs[0], enemy) || AnyThreat(bs[1..], enemy)
  }

  /** True of the four replies that move the enemy. */
  predicate IsMove(r: string)
  {
    r == "left" || r == "right" || r == "up" || r == "down"
  }

  /** `decide_action`: dodge vertically if a bullet threatens, else chase along the dominant axis. */
  function DecideAction(s: GameState): (r: string)
    ensures IsMove(r)
  {
    if AnyThreat(BulletsOf(s), s.enemy) then
      if s.player.y < s.enemy.y then "down" else "up"
    else
      var dx := s.player.x - s.enemy.x;
      var dy := s.player.y - s.enemy.y;
      if Abs(dx) > Abs(dy) then
        if dx > 0.0 then "right" else "left"
      else
        if dy > 0.0 then "down" else "up"
  }

  /**
   * The script's entry point: the line it prints, given its argument vector
   * and what `json.loads(sys.argv[1])` makes of the argument (`None` when it
   * raises, and then nothing is printed on standard output).
   */
  function PrintedLine(argv: seq<string>, decoded: Option<GameState>): Option<string>
  {
    if |argv| < 2 then Some("stay")
    else
      match decoded
      case None => None
      case Some(s) => Some(DecideAction(s))
  }

  // ---- Lemmas ------------------------------------------------------------

  /** The decision never says "stay". */
  lemma NeverStay(s: GameState)
    ensures DecideAction(s) != "stay"
  {
  }

  /** Dodging takes priority: one threatening bullet anywhere decides, by the player's side alone. */
  lemma DodgeTakesPriority(s: GameState, i: nat)
    requires i < |BulletsOf(s)| && Threatening(BulletsOf(s)[i], s.enemy)
    ensures DecideAction(s) == if s.player.y < s.enemy.y then "down" else "up"
  {
  }

  /** A threat found in one list is found in any list holding the same bullets. */
  lemma ThreatSurvivesReordering(bs: seq<Point>, ts: seq<Point>, enemy: Point)
    requires multiset(bs) == multiset(ts)
    requires AnyThreat(bs, enemy)
    ensures AnyThreat(ts, enemy)
  {
    var i :| 0 <= i < |bs| && Threatening(bs[i], enemy);
    assert bs[i] in multiset(ts);
    var j :| 0 <= j < |ts| && ts[j] == bs[i];
  }

  /** The dodge answer does not depend on which bullet matched or on the order of the bullets. */
  lemma DecisionIgnoresBulletOrder(s: GameState, t: GameState)
    requires s.player == t.player && s.enemy == t.enemy
    requires multiset(BulletsOf(s)) == multiset(BulletsOf(t))
    ensures DecideAction(s) == DecideAction(t)
  {
    if AnyThreat(BulletsOf(s), s.enemy) {
      ThreatSurvivesReordering(BulletsOf(s), BulletsOf(t), s.enemy);
    }
    if AnyThreat(BulletsOf(t), t.enemy) {
      ThreatSurvivesReordering(BulletsOf(t), BulletsOf(s), t.enemy);
    }
  }

  /** With no threat and a dominant horizontal offset, "right" exactly when the player is to the right. */
  lemma ChaseHorizontally(s: GameState)
    requires !AnyThreat(BulletsOf(s), s.enemy)
    requires Abs(s.player.x - s.enemy.x) > Abs(s.player.y - s.enemy.y)
    ensures DecideAction(s) == "right" <==> s.player.x - s.enemy.x > 0.0
    ensures DecideAction(s) == "left" <==> s.player.x - s.enemy.x <= 0.0
  {
  }

  /** With no threat and a vertical offset at least as large (ties go vertical), "down" exactly when the player is below. */
  lemma ChaseVertically(s: GameState)
    requires !AnyThreat(BulletsOf(s), s.enemy)
    requires Abs(s.player.x - s.enemy.x) <= Abs(s.player.y - s.enemy.y)
    ensures DecideAction(s) == "down" <==> s.player.y - s.enemy.y > 0.0
    ensures DecideAction(s) == "up" <==> s.player.y - s.enemy.y <= 0.0
  {
  }

  /** On top of the player, with nothing to dodge, the answer is "up". */
  lemma SameSpotGoesUp(s: GameState)
    requires !AnyThreat(BulletsOf(s), s.enemy) && s.player == s.enemy
    ensures DecideAction(s) == "up"
  {
  }

  /** A missing `bullets` entry behaves exactly like an empty list. */
  lemma MissingBulletsLikeEmpty(s: GameState)
    ensures DecideAction(s.(bullets := None)) == DecideAction(s.(bullets := Some([])))
  {
  }

  /** Without its argument the script prints "stay"; with one it prints a move or nothing. */
  lemma ArgumentGuard(argv: seq<string>, decoded: Option<GameState>)
    ensures |argv| < 2 ==> PrintedLine(argv, decoded) == Some("stay")
    ensures |argv| >= 2 && decoded.Some? ==> PrintedLine(argv, decoded).Some? && IsMove(PrintedLine(argv, decoded).value)
    ensures |argv| >= 2 && decoded.None? ==> PrintedLine(argv, decoded).None?
  {
  }
}
