/**
 * The game loop of CppGame/src/main.cpp without its drawing: one tick moves
 * and wraps the player, polls the decision script every tenth tick to move
 * the enemy, fires on a rising edge of the space key with a cooldown, runs
 * the bullet scan and checks whether the player ran into the enemy.
 */
module Game {
  import opened Collision
  import opened Bullets
  import opened Reply

  const PlayerSize: real := 50.0
  const PlayerSpeed: real := 5.0
  const BaseSpeed: real := 20.0
  /** The enemy is moved on ticks whose counter is a multiple of this. */
  const PollInterval: nat := 10
  /** `bulletCooldown` after firing, before this tick's decrement. */
  const CooldownTicks: int := 20
  const BulletSize: real := 10.0

  /** What one tick reads from outside: the key states, whether a quit event came, and the pipe. */
  datatype Input = Input(up: bool, down: bool, left: bool, right: bool, space: bool, quit: bool, reply: PipeOutput)

  /** The loop's state between two ticks (the locals of `main`). */
  datatype World = World(
    player: Rect,
    enemy: Rect,
    bullets: seq<Bullet>,
    bulletCooldown: int,
    spacePressedLastFrame: bool,
    frameCounter: nat,
    frameCount: nat,
    running: bool)

  /** The state before the first tick. */
  const Initial: World :=
    World(Rect(100.0, 100.0, 50.0, 50.0), Rect(600.0, 300.0, 50.0, 50.0), [], 0, false, 0, 0, true)

  // ---- The parts of a tick ------------------------------------------------

  /** Each held arrow key moves the player by `PlayerSpeed`; opposite keys cancel, diagonals add up. */
  function Steer(p: Rect, input: Input): Rect
  {
    p.(x := p.x - (if input.left then PlayerSpeed else 0.0) + (if input.right then PlayerSpeed else 0.0),
       y := p.y - (if input.up then PlayerSpeed else 0.0) + (if input.down then PlayerSpeed else 0.0))
  }

  /** Wraparound on one axis: fully off the low side goes to `bound`, past `bound` goes to `-PlayerSize`. */
  function WrapAxis(v: real, bound: real): real
  {
    if v + PlayerSize < 0.0 then bound
    else if v > bound then -PlayerSize
    else v
  }

  function Wrap(p: Rect): Rect
  {
    p.(x := WrapAxis(p.x, ScreenWidth), y := WrapAxis(p.y, ScreenHeight))
  }

  /** `baseSpeed + frameCount / 1000`, exactly. */
  function EnemySpeed(frameCount: nat): real
  {
    BaseSpeed + frameCount as real / 1000.0
  }

  predicate IsPollTick(frameCounter: nat)
  {
    frameCounter % PollInterval == 0
  }

  /** The fire condition: no cooldown left and space pressed now but not on the tick before. */
  predicate Triggered(cooldown: int, space: bool, spacePressedLastFrame: bool)
  {
    cooldown == 0 && space && !spacePressedLastFrame
  }

  /** The cooldown at the end of a tick: set to 20 on firing, then decremented if positive. */
  function NextCooldown(cooldown: int, fired: bool): int
  {
    var c := if fired then CooldownTicks else cooldown;
    if c > 0 then c - 1 else c
  }

  /** A new bullet, 10 by 10, centred on the player's centre. */
  function Spawn(p: Rect): Bullet
  {
    Bullet(Rect(p.x + p.w / 2.0 - 5.0, p.y + p.h / 2.0 - 5.0, BulletSize, BulletSize), BulletSpeed)
  }

  function PlayerAfter(w: World, input: Input): Rect
  {
    Wrap(Steer(w.player, input))
  }

  function EnemyAfter(w: World, input: Input): Rect
  {
    if IsPollTick(w.frameCounter) then
      Displace(w.enemy, ParseDecision(ReplyText(input.reply)), EnemySpeed(w.frameCount))
    else w.enemy
  }

  function Fired(w: World, input: Input): bool
  {
    Triggered(w.bulletCooldown, input.space, w.spacePressedLastFrame)
  }

  /** The store as the bullet scan finds it: the old bullets, and the new one if the player fired. */
  function StoreBeforeScan(w: World, input: Input): seq<Bullet>
  {
    if Fired(w, input) then w.bullets + [Spawn(PlayerAfter(w, input))] else w.bullets
  }

  /** One tick of the loop, as a function of the state before it. */
  function Step(w: World, input: Input): World
  {
    var player := PlayerAfter(w, input);
    var enemy := EnemyAfter(w, input);
    var scan := UpdateBullets(StoreBeforeScan(w, input), enemy);
    World(player, enemy, scan.bullets,
          NextCooldown(w.bulletCooldown, Fired(w, input)), input.space,
          w.frameCounter + 1, w.frameCount + 1,
          w.running && !input.quit && !scan.hit && !IsColliding(player, enemy))
  }

  /** `while (running)`: ticks until the game ends or the inputs run out. */
  function Play(w: World, inputs: seq<Input>): World
    decreases |inputs|
  {
    if inputs == [] || !w.running then w else Play(Step(w, inputs[0]), inputs[1..])
  }

  // ---- The invariant --------------------------------------------------------

  /** A bullet as the game creates it. */
  predicate WellFormed(b: Bullet)
  {
    b.speed == BulletSpeed && b.rect.w == BulletSize && b.rect.h == BulletSize
  }

  /**
   * Bullets are at least 100 apart in age order: the newest is at `base` or
   * beyond, each older one 100 further. Firing once per 20 ticks at 5 per
   * tick keeps this.
   */
  predicate Spaced(bs: seq<Bullet>, base: real)
  {
    forall i :: 0 <= i < |bs| ==> bs[i].rect.x >= base + 100.0 * (|bs| - 1 - i) as real
  }

  /** Where the newest bullet is at least, given the cooldown left. */
  function SpacingBase(cooldown: int): real
  {
    70.0 - 5.0 * cooldown as real
  }

  /** What holds between ticks. */
  predicate Inv(w: World)
  {
    && w.player.w == PlayerSize && w.player.h == PlayerSize
    && -PlayerSize <= w.player.x <= ScreenWidth && -PlayerSize <= w.player.y <= ScreenHeight
    && w.enemy.w == 50.0 && w.enemy.h == 50.0
    && 0 <= w.bulletCooldown < CooldownTicks
    && w.frameCounter == w.frameCount
    && (forall b :: b in w.bullets ==> WellFormed(b))
    && (w.running ==> (forall b :: b in w.bullets ==> b.rect.x <= ScreenWidth))
    && (w.running ==> Spaced(w.bullets, SpacingBase(w.bulletCooldown)))
  }

  // ---- Lemmas ---------------------------------------------------------------

  /** Wraparound: fully off one side jumps to the other, partly off stays, and the result is in range. */
  lemma WrapAxisCases(v: real, bound: real)
    requires bound >= 0.0
    ensures v + PlayerSize < 0.0 ==> WrapAxis(v, bound) == bound
    ensures v > bound ==> WrapAxis(v, bound) == -PlayerSize
    ensures -PlayerSize <= v <= bound ==> WrapAxis(v, bound) == v
    ensures -PlayerSize <= WrapAxis(v, bound) <= bound
  {
  }

  /** x = -1 is only partly off screen, so it is left as it is; y is never touched by the x rule. */
  lemma PartlyOffScreenStays(p: Rect)
    requires p.x == -1.0 && 0.0 <= p.y <= ScreenHeight
    ensures Wrap(p) == p
  {
  }

  /** The enemy's speed starts at 20 and never decreases. */
  lemma EnemySpeedRamps(a: nat, b: nat)
    requires a <= b
    ensures BaseSpeed <= EnemySpeed(a) <= EnemySpeed(b)
  {
  }

  /** The enemy moves only on polling ticks, and then as the reply says, by the ramped speed. */
  lemma EnemyMovesOnlyOnPolls(w: World, input: Input)
    ensures !IsPollTick(w.frameCounter) ==> Step(w, input).enemy == w.enemy
    ensures IsPollTick(w.frameCounter) ==>
      Step(w, input).enemy == Displace(w.enemy, ParseDecision(ReplyText(input.reply)), EnemySpeed(w.frameCount))
    ensures ParseDecision(ReplyText(input.reply)) == Stay ==> Step(w, input).enemy == w.enemy
  {
  }

  /**
   * Firing: a bullet is appended only on the trigger; then exactly one,
   * 10 by 10, centred on the moved player, and the tick ends with 19 ticks
   * of cooldown. The space key is remembered.
   */
  lemma FiringRule(w: World, input: Input)
    ensures var store := StoreBeforeScan(w, input);
      |store| == |w.bullets| + (if Triggered(w.bulletCooldown, input.space, w.spacePressedLastFrame) then 1 else 0) &&
      store[..|w.bullets|] == w.bullets
    ensures Fired(w, input) ==>
      var b := StoreBeforeScan(w, input)[|w.bullets|];
      var p := PlayerAfter(w, input);
      WellFormed(b) && b.rect.x + b.rect.w / 2.0 == p.x + p.w / 2.0 && b.rect.y + b.rect.h / 2.0 == p.y + p.h / 2.0
    ensures Fired(w, input) ==> Step(w, input).bulletCooldown == CooldownTicks - 1
    ensures !Fired(w, input) ==> Step(w, input).bulletCooldown == if w.bulletCooldown > 0 then w.bulletCooldown - 1 else w.bulletCooldown
    ensures w.bulletCooldown >= 0 ==> Step(w, input).bulletCooldown >= 0
    ensures Step(w, input).spacePressedLastFrame == input.space
  {
    if !Fired(w, input) {
      assert w.bullets[..|w.bullets|] == w.bullets;
    }
  }

  /** The game goes on exactly when no quit came, no bullet hit and the player is clear of the enemy. */
  lemma EndOfTick(w: World, input: Input)
    ensures Step(w, input).running <==>
      w.running && !input.quit &&
      !(exists j :: 0 <= j < |StoreBeforeScan(w, input)| && Hits(StoreBeforeScan(w, input)[j], EnemyAfter(w, input))) &&
      !IsColliding(PlayerAfter(w, input), EnemyAfter(w, input))
    ensures Step(w, input).frameCounter == w.frameCounter + 1 && Step(w, input).frameCount == w.frameCount + 1
  {
    HitIffSomeBulletHits(StoreBeforeScan(w, input), EnemyAfter(w, input));
  }

  /** The scan only moves bullets: the shape and speed of every stored bullet is kept. */
  lemma {:induction false} ScanKeepsWellFormed(bs: seq<Bullet>, enemy: Rect)
    requires forall b :: b in bs ==> WellFormed(b)
    ensures forall b :: b in UpdateBullets(bs, enemy).bullets ==> WellFormed(b)
  {
    if bs != [] {
      assert forall b :: b in bs[1..] ==> b in bs;
      assert bs[0] in bs && WellFormed(Advance(bs[0]));
      ScanKeepsWellFormed(bs[1..], enemy);
    }
  }

  /** Spacing survives the scan's advancing and erasing, 5 further on. */
  lemma {:induction false} KeptSpaced(bs: seq<Bullet>, base: real)
    requires Spaced(bs, base)
    requires forall b :: b in bs ==> b.speed == BulletSpeed
    ensures Spaced(Kept(bs), base + BulletSpeed)
  {
    if bs != [] {
      var rest := bs[1..];
      assert Spaced(rest, base) by {
        forall i | 0 <= i < |rest|
          ensures rest[i].rect.x >= base + 100.0 * (|rest| - 1 - i) as real
        {
          assert rest[i] == bs[i + 1];
        }
      }
      assert forall b :: b in rest ==> b in bs;
      KeptSpaced(rest, base);
      KeptElements(rest);
      if Survives(bs[0]) {
        var k := Kept(bs);
        assert k == [Advance(bs[0])] + Kept(rest);
        forall i | 0 <= i < |k|
          ensures k[i].rect.x >= base + BulletSpeed + 100.0 * (|k| - 1 - i) as real
        {
          if i > 0 {
            assert k[i] == Kept(rest)[i - 1];
          }
        }
      }
    }
  }

  /** A bullet at `base` or beyond appended to a store spaced from `base + 100` keeps the spacing. */
  lemma SpacedAppend(bs: seq<Bullet>, b: Bullet, base: real)
    requires Spaced(bs, base + 100.0) && b.rect.x >= base
    ensures Spaced(bs + [b], base)
  {
    var s := bs + [b];
    forall i | 0 <= i < |s|
      ensures s[i].rect.x >= base + 100.0 * (|s| - 1 - i) as real
    {
      if i < |bs| {
        assert s[i] == bs[i];
      }
    }
  }

  lemma SpacedWeaken(bs: seq<Bullet>, base: real, lower: real)
    requires Spaced(bs, base) && lower <= base
    ensures Spaced(bs, lower)
  {
  }

  /** Spaced bullets that are all on screen number at most 9. */
  lemma {:induction false} SpacedOnScreenBound(bs: seq<Bullet>, base: real)
    requires Spaced(bs, base) && base >= -30.0
    requires forall b :: b in bs ==> b.rect.x <= ScreenWidth
    ensures |bs| <= 9
  {
    if bs != [] {
      assert bs[0] in bs;
      assert bs[0].rect.x >= base + 100.0 * (|bs| - 1) as real;
    }
  }

  /** A tick keeps the invariant. */
  lemma StepPreservesInv(w: World, input: Input)
    requires Inv(w)
    ensures Inv(Step(w, input))
  {
    var w' := Step(w, input);
    var p := PlayerAfter(w, input);
    var e := EnemyAfter(w, input);
    var store := StoreBeforeScan(w, input);
    var fired := Fired(w, input);
    WrapAxisCases(Steer(w.player, input).x, ScreenWidth);
    WrapAxisCases(Steer(w.player, input).y, ScreenHeight);
    assert forall b :: b in store ==> WellFormed(b) by {
      if fired {
        assert forall b :: b in store ==> b in w.bullets || b == Spawn(p);
      }
    }
    ScanKeepsWellFormed(store, e);
    if w'.running {
      assert w.running;
      var scan := UpdateBullets(store, e);
      assert !scan.hit;
      NoHitKeepsOnScreen(store, e);
      var base := SpacingBase(w.bulletCooldown);
      if fired {
        SpacedWeaken(w.bullets, base, -30.0 + 100.0);
        SpacedAppend(w.bullets, Spawn(p), -30.0);
        KeptSpaced(store, -30.0);
      } else {
        KeptSpaced(store, base);
        SpacedWeaken(Kept(store), base + BulletSpeed, SpacingBase(w'.bulletCooldown));
      }
    }
  }

  /** While the game runs, at most 9 bullets are alive. */
  lemma LiveBulletsBounded(w: World)
    requires Inv(w) && w.running
    ensures |w.bullets| <= 9
  {
    SpacedOnScreenBound(w.bullets, SpacingBase(w.bulletCooldown));
  }

  lemma InitialInv()
    ensures Inv(Initial)
  {
  }

  /** Any run of the loop keeps the invariant, and an ended game stays as it is. */
  lemma {:induction false} PlayKeepsInv(w: World, inputs: seq<Input>)
    requires Inv(w)
    decreases |inputs|
    ensures Inv(Play(w, inputs))
    ensures !w.running ==> Play(w, inputs) == w
  {
    if inputs != [] && w.running {
      StepPreservesInv(w, inputs[0]);
      PlayKeepsInv(Step(w, inputs[0]), inputs[1..]);
    }
  }

  // ---- Several ticks of firing ------------------------------------------------

  /** Which of a run of ticks fire, from the cooldown and the key state before the first. */
  function FiringRun(cooldown: int, last: bool, spaces: seq<bool>): (r: seq<bool>)
    ensures |r| == |spaces|
    decreases |spaces|
  {
    if spaces == [] then []
    else
      var fired := Triggered(cooldown, spaces[0], last);
      [fired] + FiringRun(NextCooldown(cooldown, fired), spaces[0], spaces[1..])
  }

  /** The cooldown and remembered key state after a run of ticks. */
  function FiringState(cooldown: int, last: bool, spaces: seq<bool>): (int, bool)
    decreases |spaces|
  {
    if spaces == [] then (cooldown, last)
    else
      var fired := Triggered(cooldown, spaces[0], last);
      FiringState(NextCooldown(cooldown, fired), spaces[0], spaces[1..])
  }

  /** A run of ticks splits into its first part and the rest, started from where the first part ends. */
  lemma {:induction false} FiringRunSplit(cooldown: int, last: bool, a: seq<bool>, b: seq<bool>)
    ensures var (c, l) := FiringState(cooldown, last, a);
      FiringRun(cooldown, last, a + b) == FiringRun(cooldown, last, a) + FiringRun(c, l, b)
    decreases |a|
  {
    if a == [] {
      assert a + b == b;
    } else {
      assert (a + b)[0] == a[0];
      assert (a + b)[1..] == a[1..] + b;
      FiringRunSplit(NextCooldown(cooldown, Triggered(cooldown, a[0], last)), a[0], a[1..], b);
    }
  }

  /** No tick fires while cooldown is left, whatever the keys do. */
  lemma {:induction false} CooldownBlocksFiring(cooldown: int, last: bool, spaces: seq<bool>)
    requires 0 <= cooldown
    ensures forall i :: 0 <= i < |spaces| && i < cooldown ==> !FiringRun(cooldown, last, spaces)[i]
    decreases |spaces|
  {
    if spaces != [] && cooldown > 0 {
      CooldownBlocksFiring(cooldown - 1, spaces[0], spaces[1..]);
    }
  }

  /** Within a run of ticks, after a shot the next 19 ticks cannot fire. */
  lemma FiringRunShotsApart(cooldown: int, last: bool, spaces: seq<bool>, i: nat, j: nat)
    requires i < j < |spaces| && j - i < CooldownTicks
    requires FiringRun(cooldown, last, spaces)[i]
    ensures !FiringRun(cooldown, last, spaces)[j]
  {
    var (c, l) := FiringState(cooldown, last, spaces[..i]);
    var tail := spaces[i..];
    assert spaces == spaces[..i] + tail;
    FiringRunSplit(cooldown, last, spaces[..i], tail);
    assert FiringRun(cooldown, last, spaces)[i] == FiringRun(c, l, tail)[0];
    assert FiringRun(cooldown, last, spaces)[j] == FiringRun(c, l, tail)[j - i];
    CooldownBlocksFiring(CooldownTicks - 1, tail[0], tail[1..]);
  }

  /** The space key of each input. */
  function Spaces(inputs: seq<Input>): (r: seq<bool>)
    ensures |r| == |inputs|
    ensures forall i :: 0 <= i < |inputs| ==> r[i] == inputs[i].space
  {
    if inputs == [] then [] else [inputs[0].space] + Spaces(inputs[1..])
  }

  /** Whether each tick that `Play` actually runs fires a bullet. */
  function FiredAlong(w: World, inputs: seq<Input>): seq<bool>
    decreases |inputs|
  {
    if inputs == [] || !w.running then []
    else [Fired(w, inputs[0])] + FiredAlong(Step(w, inputs[0]), inputs[1..])
  }

  /** The ticks the loop runs fire exactly as the firing rule alone says, as far as they go. */
  lemma {:induction false} FiredAlongFollowsFiringRun(w: World, inputs: seq<Input>)
    ensures |FiredAlong(w, inputs)| <= |inputs|
    ensures FiredAlong(w, inputs) ==
      FiringRun(w.bulletCooldown, w.spacePressedLastFrame, Spaces(inputs))[..|FiredAlong(w, inputs)|]
    decreases |inputs|
  {
    if inputs != [] && w.running {
      var w' := Step(w, inputs[0]);
      assert Spaces(inputs)[1..] == Spaces(inputs[1..]);
      FiredAlongFollowsFiringRun(w', inputs[1..]);
    }
  }

  /** While cooldown is left, none of the game's ticks fires, whatever the keys do. */
  lemma CooldownBlocksTicks(w: World, inputs: seq<Input>)
    requires 0 <= w.bulletCooldown
    ensures forall i :: 0 <= i < |FiredAlong(w, inputs)| && i < w.bulletCooldown ==> !FiredAlong(w, inputs)[i]
  {
    FiredAlongFollowsFiringRun(w, inputs);
    CooldownBlocksFiring(w.bulletCooldown, w.spacePressedLastFrame, Spaces(inputs));
  }

  /** After a shot the game's next 19 ticks cannot fire: at most one bullet every 20 ticks. */
  lemma ShotsAtLeastTwentyTicksApart(w: World, inputs: seq<Input>, i: nat, j: nat)
    requires i < j < |FiredAlong(w, inputs)| && j - i < CooldownTicks
    requires FiredAlong(w, inputs)[i]
    ensures !FiredAlong(w, inputs)[j]
  {
    FiredAlongFollowsFiringRun(w, inputs);
    FiringRunShotsApart(w.bulletCooldown, w.spacePressedLastFrame, Spaces(inputs), i, j);
  }

  // ---- The loop's state, updated in place -------------------------------------

  /** The locals of `main` that the loop updates, and the loop itself. */
  class Arena {
    var player: Rect
    var enemy: Rect
    var bullets: seq<Bullet>
    var bulletCooldown: int
    var spacePressedLastFrame: bool
    var frameCounter: nat
    var frameCount: nat
    var running: bool

    function Snapshot(): World
      reads this
    {
      World(player, enemy, bullets, bulletCooldown, spacePressedLastFrame, frameCounter, frameCount, running)
    }

    ghost predicate Valid()
      reads this
    {
      Inv(Snapshot())
    }

    constructor ()
      ensures Snapshot() == Initial && Valid()
    {
      player := Rect(100.0, 100.0, 50.0, 50.0);
      enemy := Rect(600.0, 300.0, 50.0, 50.0);
      bullets := [];
      bulletCooldown := 0;
      spacePressedLastFrame := false;
      frameCounter := 0;
      frameCount := 0;
      running := true;
      InitialInv();
    }

    /** Arrow keys, then wraparound (the player rectangle is updated in place). */
    method MovePlayer(input: Input)
      modifies this`player
      ensures player == Wrap(Steer(old(player), input))
    {
      if input.up { player := player.(y := player.y - PlayerSpeed); }
      if input.down { player := player.(y := player.y + PlayerSpeed); }
      if input.left { player := player.(x := player.x - PlayerSpeed); }
      if input.right { player := player.(x := player.x + PlayerSpeed); }

      if player.x + PlayerSize < 0.0 { player := player.(x := ScreenWidth); }
      if player.x > ScreenWidth { player := player.(x := -PlayerSize); }
      if player.y + PlayerSize < 0.0 { player := player.(y := ScreenHeight); }
      if player.y > ScreenHeight { player := player.(y := -PlayerSize); }
    }

    /** The counter is read and incremented; on a polling tick the reply's token moves the enemy. */
    method PollEnemy(oracleReply: PipeOutput)
      modifies this`enemy, this`frameCounter
      ensures frameCounter == old(frameCounter) + 1
      ensures enemy == if IsPollTick(old(frameCounter))
        then Displace(old(enemy), ParseDecision(ReplyText(oracleReply)), EnemySpeed(frameCount))
        else old(enemy)
    {
      var enemySpeed := BaseSpeed + frameCount as real / 1000.0;
      var poll := frameCounter % PollInterval == 0;
      frameCounter := frameCounter + 1;
      if poll {
        var action := ReplyText(oracleReply);
        if action == "left" { enemy := enemy.(x := enemy.x - enemySpeed); }
        if action == "right" { enemy := enemy.(x := enemy.x + enemySpeed); }
        if action == "up" { enemy := enemy.(y := enemy.y - enemySpeed); }
        if action == "down" { enemy := enemy.(y := enemy.y + enemySpeed); }
      }
    }

    /** The rising-edge trigger with cooldown, appending a bullet centred on the player. */
    method Shoot(spacePressed: bool)
      modifies this`bullets, this`bulletCooldown, this`spacePressedLastFrame
      ensures var fired := Triggered(old(bulletCooldown), spacePressed, old(spacePressedLastFrame));
        bullets == (if fired then old(bullets) + [Spawn(player)] else old(bullets)) &&
        bulletCooldown == NextCooldown(old(bulletCooldown), fired)
      ensures spacePressedLastFrame == spacePressed
    {
      if bulletCooldown == 0 && spacePressed && !spacePressedLastFrame {
        var b := Bullet(Rect(player.x + player.w / 2.0 - 5.0, player.y + player.h / 2.0 - 5.0, BulletSize, BulletSize), BulletSpeed);
        bullets := bullets + [b];
        bulletCooldown := CooldownTicks;
      }
      if bulletCooldown > 0 { bulletCooldown := bulletCooldown - 1; }
      spacePressedLastFrame := spacePressed;
    }

    /** The bullet scan; a hit ends the game. */
    method ScanBullets()
      modifies this`bullets, this`running
      ensures bullets == UpdateBullets(old(bullets), enemy).bullets
      ensures running == (old(running) && !UpdateBullets(old(bullets), enemy).hit)
    {
      var hit;
      bullets, hit := UpdateBulletStore(bullets, enemy);
      if hit {
        running := false;
      }
    }

    /** One pass of the loop body, drawing left out; `oracleReply` is what the pipe gives on a polling tick. */
    method Tick(up: bool, down: bool, left: bool, right: bool, space: bool, quitEvent: bool, oracleReply: PipeOutput)
      requires Valid() && running
      modifies this
      ensures Snapshot() == Step(old(Snapshot()), Input(up, down, left, right, space, quitEvent, oracleReply))
      ensures Valid()
    {
      ghost var w := Snapshot();
      var input := Input(up, down, left, right, space, quitEvent, oracleReply);
      if quitEvent {
        running := false;
      }
      MovePlayer(input);
      PollEnemy(oracleReply);
      Shoot(space);
      ScanBullets();
      if IsColliding(player, enemy) {
        running := false;
      }
      frameCount := frameCount + 1;
      StepPreservesInv(w, input);
    }

    /** `while (running)`, fed one input per tick until the game ends or the inputs run out. */
    method Run(inputs: seq<Input>) returns (ticks: nat)
      requires Valid()
      modifies this
      ensures Valid() && ticks <= |inputs|
      ensures ticks < |inputs| ==> !running
      ensures Snapshot() == Play(old(Snapshot()), inputs)
    {
      ticks := 0;
      while running && ticks < |inputs|
        invariant Valid() && ticks <= |inputs|
        invariant Play(old(Snapshot()), inputs) == Play(Snapshot(), inputs[ticks..])
        decreases |inputs| - ticks
      {
        var input := inputs[ticks];
        assert inputs[ticks..][1..] == inputs[ticks + 1..];
        Tick(input.up, input.down, input.left, input.right, input.space, input.quit, input.reply);
        ticks := ticks + 1;
      }
      if ticks == |inputs| {
        assert inputs[ticks..] == [];
      }
    }
  }
}
