# SmartBotArena in Dafny

This project models the game logic of SmartBotArena. The game is an SDL arena in which a player-controlled square shoots bullets at an enemy square. A separate Python script decides the enemy's moves. The model covers the logic that remains once drawing, windowing and process handling are taken away:

- the rectangle overlap test `isColliding`;
- the bullet store: each tick, every bullet advances, bullets past the right edge are erased during the iteration, and the scan stops at the first bullet that hits the enemy;
- one pass of the `while (running)` loop of `main`, as the class `Game.Arena`:
  - arrow-key movement and wraparound;
  - polling the decision script every tenth tick and moving the enemy by `20 + frameCount/1000`;
  - firing on a rising edge of the space key, with a cooldown;
  - the bullet scan (a hit is a win);
  - the player/enemy collision (a loss);
- how `callPythonAI` reads the script's reply:
  - a failed pipe gives `"stay"`;
  - every `'\n'` and every `'\r'` is erased, wherever it occurs;
  - only the four exact tokens move the enemy;
- the script's `decide_action`: dodge a threatening bullet, otherwise chase the player along the dominant axis;
- the script's argument-count guard.

Files and modules:

- `collision.dfy` (`Collision`): `Rect`, `Point`, the screen size and `IsColliding`.
- `bullets.dfy` (`Bullets`):
  - `Bullet`;
  - `UpdateBullets`, the scan as a recursive function, one bullet at a time;
  - `Kept` and `FirstHit`, reference definitions that describe its result without the scan;
  - `UpdateBulletStore`, the erase-while-iterating loop, proved equal to `UpdateBullets`.
- `reply.dfy` (`Reply`):
  - `Erase` and `TrimLineEnds`, the two `erase(remove(...))` passes;
  - `EraseRemove` and `TrimInPlace`, the same passes in place on a character buffer;
  - `ReplyText`, with the `"stay"` fallback;
  - `ParseDecision` and `Displace`, the four token comparisons and the enemy move.
- `bot_model.dfy` (`BotModel`): `GameState` (the decoded JSON), `DecideAction` and `PrintedLine` (the script's entry point).
- `oracle.dfy` (`Oracle`): the request as the script decodes it, and lemmas about the round trip from game to script and back.
- `game.dfy` (`Game`):
  - `World`, the loop's state;
  - `Step`, one tick as a function;
  - `Inv`, what holds between ticks;
  - `Play`, the loop as a function;
  - the class `Arena`. Its fields are the loop's locals. Its `Tick` method updates them in place and is proved to produce `Step` of the old state. It does this through one method per commented section of the loop body.

Between ticks, `Inv` keeps these facts:

- the cooldown stays in `0..19`;
- the player stays within `[-50, 800] x [-50, 600]`;
- `frameCounter == frameCount`;
- while the game runs, every bullet is on screen;
- while the game runs, bullets are at least 100 units apart in age order. This holds because there is one shot per 20 ticks and bullets move 5 units per tick. It bounds the live bullets to at most 9 (`LiveBulletsBounded`).

In three places the code behaves otherwise than one might expect; the model follows the code:

- A player at `x = -1` is only partly off screen. The code wraps only when `x + 50 < 0`, so `x = -1` is left unchanged (`Game.PartlyOffScreenStays`).
- Line endings are removed anywhere in the reply, not only at its end (`Reply.TrimInsideText`).
- A quit event does not end the tick early. The rest of the tick still runs, including the enemy poll and the bullet scan.

## Model

| member | source | states |
|---|---|---|
| `Collision.CollidingSymmetric` | SmartBotArena/CppGame/src/main.cpp:14-19 | the overlap test gives the same answer with its arguments swapped |
| `Collision.TouchingEdgesDoNotCollide` | SmartBotArena/CppGame/src/main.cpp:14-19 | rectangles that only share an edge (`a.x + a.w == b.x` and the like) do not collide, since all four comparisons are strict |
| `Collision.CollidingIffCommonInteriorPoint` | SmartBotArena/CppGame/src/main.cpp:14-19 | for rectangles of positive size, they collide exactly when some point lies strictly inside both (both directions) |
| `Collision.SelfCollides` | SmartBotArena/CppGame/src/main.cpp:162-165 | two actors of positive size on the same rectangle collide, so fully overlapping player and enemy end the game |
| `Bullets.FirstHit` | SmartBotArena/CppGame/src/main.cpp:143-159 | the index it returns is a bullet that stays on screen and hits the enemy after advancing, and no earlier bullet does; `None` means no bullet does |
| `Bullets.KeptAppend` | SmartBotArena/CppGame/src/main.cpp:143-159 | keeping survivors works piece by piece, so survivors keep their relative order |
| `Bullets.KeptElements` | SmartBotArena/CppGame/src/main.cpp:144-149 | no more survivors than bullets; every survivor has `x <= 800` and is a stored bullet with `x` increased by exactly its speed and `y`, `w`, `h` and speed unchanged |
| `Bullets.KeptComplete` | SmartBotArena/CppGame/src/main.cpp:144-149 | every stored bullet whose advanced `x` is at most 800 is kept, advanced, so a bullet is removed exactly when its advanced `x > 800` |
| `Bullets.UpdateShape` | SmartBotArena/CppGame/src/main.cpp:143-159 | the scan's result: without a hit, exactly the survivors in order; otherwise the survivors before the first hitting bullet, then that bullet advanced, then every later bullet neither advanced nor removed |
| `Bullets.HitIffSomeBulletHits` | SmartBotArena/CppGame/src/main.cpp:152-156 | the scan signals a hit exactly when some stored bullet stays on screen and overlaps the enemy after advancing |
| `Bullets.NoHitKeepsOnScreen` | SmartBotArena/CppGame/src/main.cpp:143-159 | without a hit every bullet is processed and every remaining bullet has `x <= 800` |
| `Bullets.UpdateNeverGrows` | SmartBotArena/CppGame/src/main.cpp:143-159 | the scan never lengthens the store |
| `Bullets.UpdateBulletStore` | SmartBotArena/CppGame/src/main.cpp:143-159 | the in-place loop (advance, erase and continue at the same position, or stop on a hit) computes exactly the one-bullet-at-a-time scan, so no bullet is skipped or processed twice |
| `Reply.EraseAppend` | SmartBotArena/CppGame/src/main.cpp:50-51 | erasing a character distributes over concatenation, so the kept characters stay in order |
| `Reply.EraseContents` | SmartBotArena/CppGame/src/main.cpp:50-51 | after erasing `c` no `c` is left, and every other character is kept with its multiplicity |
| `Reply.EraseAbsent` | SmartBotArena/CppGame/src/main.cpp:50-51 | a string without the character is left unchanged |
| `Reply.TrimRemovesLineEnds` | SmartBotArena/CppGame/src/main.cpp:49-52 | the trimmed reply contains no `'\n'` and no `'\r'`, and every other character is kept |
| `Reply.TrimAppend` | SmartBotArena/CppGame/src/main.cpp:49-52 | trimming works piece by piece, so the remaining characters keep their order |
| `Reply.TrimNoLineEnds` | SmartBotArena/CppGame/src/main.cpp:49-52 | a reply without line-ending characters is returned as it is |
| `Reply.TrimIdempotent` | SmartBotArena/CppGame/src/main.cpp:49-52 | trimming twice gives the same as trimming once |
| `Reply.TrimInsideText` | SmartBotArena/CppGame/src/main.cpp:49-52 | line endings are removed anywhere in the reply, not only at its end |
| `Reply.EraseRemove` | SmartBotArena/CppGame/src/main.cpp:50 | `erase(remove(...))` in place on a buffer leaves exactly the erased string in front |
| `Reply.TrimInPlace` | SmartBotArena/CppGame/src/main.cpp:50-51 | both passes in place leave exactly the trimmed reply in front |
| `Reply.PipeFailureIsStay` | SmartBotArena/CppGame/src/main.cpp:39-40 | a pipe that cannot be opened gives `"stay"`, which does not move the enemy |
| `Reply.OnlyExactTokensMove` | SmartBotArena/CppGame/src/main.cpp:120-123 | any reply other than exactly `left`, `right`, `up` or `down` leaves the enemy unchanged |
| `Reply.TokenMovesOneAxis` | SmartBotArena/CppGame/src/main.cpp:120-123 | a recognised token moves the enemy by exactly the speed along one axis and keeps its size |
| `Reply.LeftWithNewline` | SmartBotArena/CppGame/src/main.cpp:49-52 | a captured `"left\n"` is read as a move left |
| `BotModel.AnyThreat` | SmartBotArena/PythonAI/bot_model.py:11-12 | the dodging scan finds a threat exactly when some bullet has `abs(by-ey) < 30`, `abs(bx-ex) < 200` and `bx < ex` |
| `BotModel.DecideAction` | SmartBotArena/PythonAI/bot_model.py:5-21 | the answer is always one of `left`, `right`, `up`, `down` |
| `BotModel.NeverStay` | SmartBotArena/PythonAI/bot_model.py:13-21 | the decision is never `"stay"` |
| `BotModel.DodgeTakesPriority` | SmartBotArena/PythonAI/bot_model.py:11-13 | if any bullet threatens, the answer is `down` when `py < ey` and `up` otherwise, whatever the chase rule would say |
| `BotModel.DecisionIgnoresBulletOrder` | SmartBotArena/PythonAI/bot_model.py:11-13 | the decision does not depend on the order of the bullets or on which bullet matched |
| `BotModel.ChaseHorizontally` | SmartBotArena/PythonAI/bot_model.py:15-19 | with no threat and `abs(dx) > abs(dy)`, the answer is `right` exactly when `dx > 0` and `left` exactly when `dx <= 0` |
| `BotModel.ChaseVertically` | SmartBotArena/PythonAI/bot_model.py:18-21 | with no threat and `abs(dx) <= abs(dy)`, the answer is `down` exactly when `dy > 0` and `up` exactly when `dy <= 0` |
| `BotModel.SameSpotGoesUp` | SmartBotArena/PythonAI/bot_model.py:18-21 | with no threat and `dx = dy = 0`, the answer is `up` |
| `BotModel.MissingBulletsLikeEmpty` | SmartBotArena/PythonAI/bot_model.py:8 | a missing `bullets` entry behaves exactly like an empty list |
| `BotModel.ArgumentGuard` | SmartBotArena/PythonAI/bot_model.py:23-28 | with fewer than two argv entries the script prints `stay`; otherwise it prints a move, or nothing when decoding fails |
| `Oracle.Positions` | SmartBotArena/CppGame/src/main.cpp:27-32 | the request lists one position per stored bullet, in store order |
| `Oracle.TrimPrintedWord` | SmartBotArena/CppGame/src/main.cpp:44-52 | a printed word followed by any line terminator made of `'\n'`/`'\r'` is read back as the word |
| `Oracle.DecisionSurvivesPipe` | SmartBotArena/CppGame/src/main.cpp:21-52 | with a working pipe, the game reads exactly the direction `decide_action` chose for the snapshot it sent, so the enemy always moves on a polling tick |
| `Oracle.MissingArgumentMeansStay` | SmartBotArena/PythonAI/bot_model.py:24-25 | the script's `stay`, printed when the argument is missing, maps to no movement on the game side |
| `Oracle.ScriptFailureMeansStay` | SmartBotArena/CppGame/src/main.cpp:42-52 | a script that prints nothing leaves the enemy where it is |
| `Oracle.PollMovesEnemyAsDecided` | SmartBotArena/CppGame/src/main.cpp:115-124 | on a polling tick with a working pipe, the enemy moves as the script decides for the snapshot sent: the player after this tick's movement, the enemy before its move and the bullets before this tick's shot; the enemy always moves |
| `Oracle.ChaseClosesIn` | SmartBotArena/PythonAI/bot_model.py:15-21 | with nothing to dodge, a move shorter than twice the larger offset brings the enemy strictly closer to the player |
| `Game.WrapAxisCases` | SmartBotArena/CppGame/src/main.cpp:109-112 | `v + 50 < 0` gives the far edge, `v > bound` gives `-50`, anything in `[-50, bound]` is unchanged, and the result always lies in `[-50, bound]` |
| `Game.PartlyOffScreenStays` | SmartBotArena/CppGame/src/main.cpp:109-112 | a player at `x = -1` (only partly off screen) is not moved, and `y` is not touched |
| `Game.EnemySpeedRamps` | SmartBotArena/CppGame/src/main.cpp:115-116 | the enemy speed is at least 20 and never decreases as `frameCount` grows |
| `Game.EnemyMovesOnlyOnPolls` | SmartBotArena/CppGame/src/main.cpp:115-124 | the enemy moves only when the pre-increment `frameCounter % 10 == 0`, then as the reply says by the ramped speed, and never on a reply that is not a token |
| `Game.FiringRule` | SmartBotArena/CppGame/src/main.cpp:127-140 | a bullet is appended only when `bulletCooldown == 0 && space && !spacePressedLastFrame`. It is exactly one 10x10 bullet centred on the moved player, and the tick then ends with cooldown 19. Otherwise a positive cooldown drops by one. The cooldown never turns negative, and `spacePressedLastFrame` ends as this tick's `space` |
| `Game.EndOfTick` | SmartBotArena/CppGame/src/main.cpp:96-165 | the game goes on exactly when it was running, no quit event came, no bullet hit the enemy and the player does not overlap the enemy; both counters grow by one |
| `Game.ScanKeepsWellFormed` | SmartBotArena/CppGame/src/main.cpp:143-159 | the scan keeps every bullet's size and speed |
| `Game.KeptSpaced` | SmartBotArena/CppGame/src/main.cpp:143-159 | spacing between bullets survives advancing and erasing, moved 5 further |
| `Game.SpacedAppend` | SmartBotArena/CppGame/src/main.cpp:128-137 | a new bullet appended to a store that was 100 apart keeps the spacing |
| `Game.SpacedOnScreenBound` | SmartBotArena/CppGame/src/main.cpp:143-159 | spaced bullets that are all on screen number at most 9 |
| `Game.StepPreservesInv` | SmartBotArena/CppGame/src/main.cpp:92-189 | a tick keeps the invariant: player size and range, cooldown in `0..19`, equal counters, bullet shape, and while running every bullet on screen and spaced |
| `Game.LiveBulletsBounded` | SmartBotArena/CppGame/src/main.cpp:127-159 | while the game runs at most 9 bullets are alive |
| `Game.InitialInv` | SmartBotArena/CppGame/src/main.cpp:79-90 | the starting state satisfies the invariant |
| `Game.PlayKeepsInv` | SmartBotArena/CppGame/src/main.cpp:92-189 | any number of ticks keeps the invariant, and a game that has ended stays as it is |
| `Game.FiringRunSplit` | SmartBotArena/CppGame/src/main.cpp:127-140 | the shots of a run of ticks are those of its first part followed by those of the rest |
| `Game.CooldownBlocksFiring` | SmartBotArena/CppGame/src/main.cpp:128-139 | by the firing rule alone, no tick fires while cooldown is left, whatever the key states |
| `Game.FiringRunShotsApart` | SmartBotArena/CppGame/src/main.cpp:128-139 | by the firing rule alone, after a shot the next 19 ticks cannot fire |
| `Game.Spaces` | SmartBotArena/CppGame/src/main.cpp:127 | the space-key state of each tick's input, in order |
| `Game.FiredAlongFollowsFiringRun` | SmartBotArena/CppGame/src/main.cpp:92-140 | the ticks the loop actually runs fire exactly as the firing rule alone says, tick for tick, as far as the game runs |
| `Game.CooldownBlocksTicks` | SmartBotArena/CppGame/src/main.cpp:128-139 | while cooldown is left, none of the game's ticks fires, whatever the keys do |
| `Game.ShotsAtLeastTwentyTicksApart` | SmartBotArena/CppGame/src/main.cpp:128-139 | among the ticks the game runs, after a shot the next 19 cannot fire: at most one bullet every 20 ticks |
| `Game.Arena.constructor` | SmartBotArena/CppGame/src/main.cpp:79-90 | the initial player, enemy, empty store and counters, satisfying the invariant |
| `Game.Arena.MovePlayer` | SmartBotArena/CppGame/src/main.cpp:103-112 | the player rectangle, updated in place, ends as the arrow-key displacement followed by wraparound |
| `Game.Arena.PollEnemy` | SmartBotArena/CppGame/src/main.cpp:115-124 | `frameCounter` grows by one, and the enemy moves by the reply's token only on a polling tick |
| `Game.Arena.Shoot` | SmartBotArena/CppGame/src/main.cpp:127-140 | on the trigger, exactly one bullet is appended, centred on the player, and the cooldown follows the 20-then-decrement rule. The space key is remembered |
| `Game.Arena.ScanBullets` | SmartBotArena/CppGame/src/main.cpp:143-159 | the store becomes the scan's result, and a hit ends the game |
| `Game.Arena.Tick` | SmartBotArena/CppGame/src/main.cpp:92-189 | the new state is exactly `Step` of the old one, and the invariant is kept |
| `Game.Arena.Run` | SmartBotArena/CppGame/src/main.cpp:92 | `while (running)` runs ticks until the game ends or the inputs run out, with the final state equal to `Play` and the invariant kept |

## Left out

- SDL set-up and tear-down, event pumping, drawing, presentation and `SDL_Delay` (main.cpp:56-77, 93-102, 167-188, 191-194) are presentation over a library this model does not see. Key states and the quit event are boolean inputs of `Tick`.
- Starting the decision script (`_popen`, reading through a 128-byte `fgets` buffer, `_pclose`, the hard-coded interpreter path) is foreign process I/O. What the pipe gives is the input `PipeOutput`: either `PipeFailed` or the captured text. The reply is only read on polling ticks.
- The JSON request text (main.cpp:22-36) depends on platform float formatting. `json.loads` is a library call. The request is modelled as the decoded `GameState`, with the bullet positions in store order. A failed decode, including a `KeyError` on a missing `player` or `enemy`, is modelled as `None`: the script then prints nothing on standard output.
- Console logging (main.cpp:57, 119, 153, 163) is output only.
- IEEE-754 `float` arithmetic, including the rounding of `frameCount / 1000.0f`: coordinates and speeds are exact reals. Python's int/float distinction is not modelled either.
- Game.World: `frameCounter` and `frameCount` are unbounded naturals. The 32-bit `int` overflow after about 2^31 ticks is not modelled.
- Game.Arena.Tick: requires `running`, because the loop body only runs while `running` is true.
- Game.Step: that a bullet is at `x0 + k*speed` after `k` ticks is stated one tick at a time (`Bullets.KeptElements`), not over `k` ticks.
- Game.Arena.Tick: is proved through four helper methods, one per commented section of the loop body. The source writes these sections inline.
