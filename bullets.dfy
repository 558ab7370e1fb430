/**
 * The bullet store of the game loop (CppGame/src/main.cpp): the `Bullet`
 * record and the per-tick scan that advances every bullet, erases the ones
 * past the right edge while iterating, and stops at the first one that hits
 * the enemy.
 */
module Bullets {
  import opened Wrappers
  import opened Collision

  /** A bullet: its rectangle and the distance it travels rightwards each tick. */
  datatype Bullet = Bullet(rect: Rect, speed: real)

  /** The default speed of a `Bullet`. */
  const BulletSpeed: real := 5.0

  /** What one pass over the store leaves: the new store, and whether a bullet hit the enemy. */
  datatype ScanResult = ScanResult(bullets: seq<Bullet>, hit: bool)

  /** `it->rect.x += it->speed`. */
  function Advance(b: Bullet): Bullet
  {
    b.(rect := b.rect.(x := b.rect.x + b.speed))
  }

  /** The bullet is still on screen after advancing (it is not erased). */
  predicate Survives(b: Bullet)
  {
    Advance(b).rect.x <= ScreenWidth
  }

  /** The bullet stays in the store after advancing and then overlaps the enemy. */
  predicate Hits(b: Bullet, enemy: Rect)
  {
    Survives(b) && IsColliding(Advance(b).rect, enemy)
  }

  /**
   * The scan of the source, one bullet at a time from the front: advance it;
   * past the right edge it is dropped; overlapping the enemy it stays, the
   * scan stops and the rest is left as it was; otherwise it stays and the
   * scan goes on.
   */
  function UpdateBullets(bs: seq<Bullet>, enemy: Rect): ScanResult
  {
    if bs == [] then ScanResult([], false)
    else
      var b := Advance(bs[0]);
      if b.rect.x > ScreenWidth then UpdateBullets(bs[1..], enemy)
      else if IsColliding(b.rect, enemy) then ScanResult([b] + bs[1..], true)
      else
        var rest := UpdateBullets(bs[1..], enemy);
        ScanResult([b] + rest.bullets, rest.hit)
  }

  /** Reference: the advanced bullets that stay on screen, in store order. */
  function Kept(bs: seq<Bullet>): seq<Bullet>
  {
    if bs == [] then []
    else if Survives(bs[0]) then [Advance(bs[0])] + Kept(bs[1..])
    else Kept(bs[1..])
  }

  /** Reference: the position of the first bullet that hits the enemy, if one does. */
  function FirstHit(bs: seq<Bullet>, enemy: Rect): (r: Option<nat>)
    ensures r.Some? ==> r.value < |bs| && Hits(bs[r.value], enemy)
    ensures r.Some? ==> forall j :: 0 <= j < r.value ==> !Hits(bs[j], enemy)
    ensures r.None? ==> forall j :: 0 <= j < |bs| ==> !Hits(bs[j], enemy)
  {
    if bs == [] then None
    else if Hits(bs[0], enemy) then Some(0)
    else
      match FirstHit(bs[1..], enemy)
      case None => None
      case Some(k) => Some(k + 1)
  }

  // ---- Kept --------------------------------------------------------------

  /** Keeping works piece by piece, so survivors keep their relative order. */
  lemma {:induction false} KeptAppend(s: seq<Bullet>, t: seq<Bullet>)
    ensures Kept(s + t) == Kept(s) + Kept(t)
  {
    if s == [] {
      assert s + t == t;
    } else {
      assert (s + t)[1..] == s[1..] + t;
      KeptAppend(s[1..], t);
    }
  }

  /**
   * Every kept bullet is on screen and is some stored bullet moved by exactly
   * its speed along x, with y, size and speed unchanged.
   */
  lemma {:induction false} KeptElements(bs: seq<Bullet>)
    ensures |Kept(bs)| <= |bs|
    ensures forall k :: k in Kept(bs) ==> k.rect.x <= ScreenWidth
    ensures forall k :: k in Kept(bs) ==>
      exists b :: b in bs && Survives(b) && k == Advance(b) &&
        k.rect.x == b.rect.x + b.speed && k.rect.y == b.rect.y &&
        k.rect.w == b.rect.w && k.rect.h == b.rect.h && k.speed == b.speed
  {
    if bs != [] {
      KeptElements(bs[1..]);
      forall k | k in Kept(bs)
        ensures exists b :: b in bs && Survives(b) && k == Advance(b)
      {
        if Survives(bs[0]) && k == Advance(bs[0]) {
          assert bs[0] in bs;
        } else {
          var b :| b in bs[1..] && Survives(b) && k == Advance(b);
          assert b in bs;
        }
      }
    }
  }

  /** Conversely every stored bullet that stays on screen is kept, advanced: a bullet is erased exactly when its advanced x is past the right edge. */
  lemma {:induction false} KeptComplete(bs: seq<Bullet>)
    ensures forall b :: b in bs && Survives(b) ==> Advance(b) in Kept(bs)
  {
    if bs != [] {
      KeptComplete(bs[1..]);
      assert forall b :: b in bs ==> b == bs[0] || b in bs[1..];
    }
  }

  // ---- The scan ----------------------------------------------------------

  /**
   * What the scan leaves, stated without the loop: with no hit, exactly the
   * kept bullets; otherwise the kept bullets before the first hitting one,
   * that one advanced, and everything after it neither advanced nor removed.
   */
  lemma {:induction false} UpdateShape(bs: seq<Bullet>, enemy: Rect)
    ensures UpdateBullets(bs, enemy) ==
      match FirstHit(bs, enemy)
      case None => ScanResult(Kept(bs), false)
      case Some(k) => ScanResult(Kept(bs[..k]) + [Advance(bs[k])] + bs[k + 1..], true)
  {
    if bs != [] {
      UpdateShape(bs[1..], enemy);
      if !Hits(bs[0], enemy) {
        match FirstHit(bs[1..], enemy)
        case None =>
        case Some(k) =>
          assert bs[..k + 1] == [bs[0]] + bs[1..][..k];
          assert bs[k + 1 + 1..] == bs[1..][k + 1..];
      } else {
        assert bs[..0] == [];
      }
    }
  }

  /** The scan reports a hit exactly when some stored bullet hits after advancing. */
  lemma HitIffSomeBulletHits(bs: seq<Bullet>, enemy: Rect)
    ensures UpdateBullets(bs, enemy).hit <==> exists j :: 0 <= j < |bs| && Hits(bs[j], enemy)
  {
    UpdateShape(bs, enemy);
  }

  /** Without a hit every bullet is processed: survivors are all on screen and in order. */
  lemma NoHitKeepsOnScreen(bs: seq<Bullet>, enemy: Rect)
    requires !UpdateBullets(bs, enemy).hit
    ensures UpdateBullets(bs, enemy).bullets == Kept(bs)
    ensures forall k :: k in UpdateBullets(bs, enemy).bullets ==> k.rect.x <= ScreenWidth
  {
    UpdateShape(bs, enemy);
    KeptElements(bs);
  }

  /** The scan never makes the store longer. */
  lemma UpdateNeverGrows(bs: seq<Bullet>, enemy: Rect)
    ensures |UpdateBullets(bs, enemy).bullets| <= |bs|
  {
    UpdateShape(bs, enemy);
    match FirstHit(bs, enemy)
    case None => KeptElements(bs);
    case Some(k) => KeptElements(bs[..k]);
  }

  // ---- One step of the in-place walk --------------------------------------

  /** Processing bullet `k` extends the kept prefix by that bullet's fate. */
  lemma KeptStep(bs: seq<Bullet>, k: nat)
    requires k < |bs|
    ensures Kept(bs[..k + 1]) == Kept(bs[..k]) + (if Survives(bs[k]) then [Advance(bs[k])] else [])
  {
    assert bs[..k + 1] == bs[..k] + [bs[k]];
    KeptAppend(bs[..k], [bs[k]]);
  }

  /** Erasing the bullet under the iterator leaves the processed prefix plus the untouched rest. */
  lemma EraseStep(bs: seq<Bullet>, k: nat, store: seq<Bullet>, it: nat)
    requires k < |bs| && !Survives(bs[k])
    requires it == |Kept(bs[..k])| && store == Kept(bs[..k]) + bs[k..]
    ensures it < |store|
    ensures store[..it] + store[it + 1..] == Kept(bs[..k + 1]) + bs[k + 1..]
  {
    KeptStep(bs, k);
    assert store[..it] == Kept(bs[..k]);
    assert store[it + 1..] == bs[k + 1..];
  }

  /** Advancing the bullet under the iterator in place and moving on. */
  lemma KeepStep(bs: seq<Bullet>, k: nat, store: seq<Bullet>, it: nat)
    requires k < |bs| && Survives(bs[k])
    requires it == |Kept(bs[..k])| && store == Kept(bs[..k]) + bs[k..]
    ensures it < |store| && store[it] == bs[k]
    ensures it + 1 == |Kept(bs[..k + 1])|
    ensures store[it := Advance(bs[k])] == Kept(bs[..k + 1]) + bs[k + 1..]
  {
    KeptStep(bs, k);
    assert bs[k..] == [bs[k]] + bs[k + 1..];
  }

  /** Stopping at the first hitting bullet gives what the scan gives. */
  lemma HitStep(bs: seq<Bullet>, enemy: Rect, k: nat, store: seq<Bullet>, it: nat)
    requires k < |bs| && Hits(bs[k], enemy)
    requires forall j :: 0 <= j < k ==> !Hits(bs[j], enemy)
    requires it == |Kept(bs[..k])| && store == Kept(bs[..k]) + bs[k..]
    ensures it < |store|
    ensures UpdateBullets(bs, enemy) == ScanResult(store[it := Advance(bs[k])], true)
  {
    assert FirstHit(bs, enemy) == Some(k);
    UpdateShape(bs, enemy);
    assert bs[k..] == [bs[k]] + bs[k + 1..];
  }

  /** Walking off the end of the store means every bullet was processed without a hit. */
  lemma EndStep(bs: seq<Bullet>, enemy: Rect, k: nat, store: seq<Bullet>, it: nat)
    requires k <= |bs|
    requires forall j :: 0 <= j < k ==> !Hits(bs[j], enemy)
    requires it == |Kept(bs[..k])| && store == Kept(bs[..k]) + bs[k..]
    requires it >= |store|
    ensures UpdateBullets(bs, enemy) == ScanResult(store, false)
  {
    assert k == |bs|;
    assert bs[..k] == bs;
    UpdateShape(bs, enemy);
  }

  /**
   * The loop of the source: an iterator walks the store, advancing the bullet
   * under it; a bullet past the right edge is erased in place (the iterator
   * then points at the next one), a bullet that hits the enemy stops the walk.
   */
  method UpdateBulletStore(bs: seq<Bullet>, enemy: Rect) returns (store: seq<Bullet>, hit: bool)
    ensures ScanResult(store, hit) == UpdateBullets(bs, enemy)
  {
    store := bs;
    hit := false;
    var it := 0;
    ghost var k := 0;
    assert bs[..0] == [];
    while it < |store|
      invariant 0 <= k <= |bs|
      invariant it == |Kept(bs[..k])|
      invariant store == Kept(bs[..k]) + bs[k..]
      invariant forall j :: 0 <= j < k ==> !Hits(bs[j], enemy)
      decreases |store| - it
    {
      ghost var before := store;
      store := store[it := Advance(store[it])];
      if store[it].rect.x > ScreenWidth {
        EraseStep(bs, k, before, it);
        store := store[..it] + store[it + 1..];
        k := k + 1;
        continue;
      }
      if IsColliding(store[it].rect, enemy) {
        HitStep(bs, enemy, k, before, it);
        hit := true;
        break;
      }
      KeepStep(bs, k, before, it);
      k := k + 1;
      it := it + 1;
    }
    if !hit {
      EndStep(bs, enemy, k, store, it);
    }
  }
}
