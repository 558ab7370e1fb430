/**
 * The game's call-out to the decision script, end to end (`callPythonAI` in
 * CppGame/src/main.cpp and the script PythonAI/bot_model.py): the world
 * snapshot sent as the request, and what the game makes of what comes back.
 */
module Oracle {
  import opened Wrappers
  import opened Collision
  import opened Bullets
  import opened Reply
  import opened BotModel
  import opened Game

  /** The positions of the stored bullets, in store order. */
  function Positions(bs: seq<Bullet>): (ps: seq<Point>)
    ensures |ps| == |bs|
    ensures forall i :: 0 <= i < |bs| ==> ps[i] == Point(bs[i].rect.x, bs[i].rect.y)
  {
    if bs == [] then [] else [Point(bs[0].rect.x, bs[0].rect.y)] + Positions(bs[1..])
  }

  /** The request, as the script decodes it: player and enemy corners and the bullet positions. */
  function Request(player: Rect, enemy: Rect, bs: seq<Bullet>): GameState
  {
    GameState(Point(player.x, player.y), Point(enemy.x, enemy.y), Some(Positions(bs)))
  }

  /** What the pipe captures when the script runs: its printed line and a line terminator, or nothing. */
  function ScriptOutput(argv: seq<string>, decoded: Option<GameState>, eol: string): PipeOutput
  {
    match PrintedLine(argv, decoded)
    case None => Captured("")
    case Some(line) => Captured(line + eol)
  }

  /** A terminator made of line-ending characters only ("\n", or "\r\n" from a text-mode console). */
  predicate LineEnding(eol: string)
  {
    forall i :: 0 <= i < |eol| ==> eol[i] == '\n' || eol[i] == '\r'
  }

  /** Trimming a printed word and its terminator gives back the word. */
  lemma TrimPrintedWord(word: string, eol: string)
    requires '\n' !in word && '\r' !in word && LineEnding(eol)
    ensures TrimLineEnds(word + eol) == word
  {
    TrimAppend(word, eol);
    TrimNoLineEnds(word);
    TrimRemovesLineEnds(eol);
    var t := TrimLineEnds(eol);
    assert multiset(eol)['\n' := 0]['\r' := 0] == multiset{} by {
      forall c | c in multiset(eol)
        ensures c == '\n' || c == '\r'
      {
        var i :| 0 <= i < |eol| && eol[i] == c;
      }
    }
    assert |t| == 0 by {
      assert |multiset(t)| == 0;
    }
  }

  /**
   * With the pipe working and the request decoded, the script's answer
   * survives the trip: the game reads exactly the direction `decide_action`
   * chose, so the enemy always moves on a polling tick.
   */
  lemma DecisionSurvivesPipe(player: Rect, enemy: Rect, bs: seq<Bullet>, script: string, arg: string, eol: string)
    requires LineEnding(eol)
    ensures var s := Request(player, enemy, bs);
      ReplyText(ScriptOutput([script, arg], Some(s), eol)) == DecideAction(s)
    ensures ParseDecision(ReplyText(ScriptOutput([script, arg], Some(Request(player, enemy, bs)), eol))) != Stay
  {
    var s := Request(player, enemy, bs);
    TrimPrintedWord(DecideAction(s), eol);
  }

  /** Without the argument the script prints "stay", which the game maps to no movement. */
  lemma MissingArgumentMeansStay(argv: seq<string>, decoded: Option<GameState>, eol: string)
    requires |argv| < 2 && LineEnding(eol)
    ensures ReplyText(ScriptOutput(argv, decoded, eol)) == "stay"
    ensures ParseDecision(ReplyText(ScriptOutput(argv, decoded, eol))) == Stay
  {
    TrimPrintedWord("stay", eol);
  }

  /** A script that fails to decode its argument prints nothing, and the enemy stays. */
  lemma ScriptFailureMeansStay(argv: seq<string>, eol: string)
    requires |argv| >= 2
    ensures ParseDecision(ReplyText(ScriptOutput(argv, None, eol))) == Stay
  {
    assert TrimLineEnds("") == "";
  }

  function Max(a: real, b: real): real
  {
    if a < b then b else a
  }

  /**
   * Chasing closes in: with nothing to dodge, a move shorter than twice the
   * larger of the two offsets brings the enemy strictly closer to the player
   * (in the sum of the two offsets).
   */
  lemma ChaseClosesIn(player: Rect, enemy: Rect, bs: seq<Bullet>, speed: real)
    requires !AnyThreat(Positions(bs), Point(enemy.x, enemy.y))
    requires 0.0 < speed < 2.0 * Max(Abs(player.x - enemy.x), Abs(player.y - enemy.y))
    ensures var e := Displace(enemy, ParseDecision(DecideAction(Request(player, enemy, bs))), speed);
      Abs(player.x - e.x) + Abs(player.y - e.y) < Abs(player.x - enemy.x) + Abs(player.y - enemy.y)
  {
  }

  /**
   * On a polling tick, with the pipe working, the enemy moves as the script
   * decides for the snapshot the game sends: the player after this tick's
   * movement, the enemy before its move, and the bullets before this tick's
   * shot. The enemy always moves.
   */
  lemma PollMovesEnemyAsDecided(w: World, input: Input, script: string, arg: string, eol: string)
    requires IsPollTick(w.frameCounter) && LineEnding(eol)
    requires input.reply == ScriptOutput([script, arg], Some(Request(PlayerAfter(w, input), w.enemy, w.bullets)), eol)
    ensures Step(w, input).enemy ==
      Displace(w.enemy, ParseDecision(DecideAction(Request(PlayerAfter(w, input), w.enemy, w.bullets))), EnemySpeed(w.frameCount))
    ensures Step(w, input).enemy != w.enemy
  {
    DecisionSurvivesPipe(PlayerAfter(w, input), w.enemy, w.bullets, script, arg, eol);
    EnemySpeedRamps(0, w.frameCount);
  }
}
