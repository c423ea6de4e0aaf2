/** The collision resolver of src/GameMode/BaseGameClass.ts: the half-open
    box overlap test, resolution by the kind of the other entity, and the
    ordered pass of the player against one roster list. */
module Collision {
  import opened Entities
  import opened Players
  import opened Enemies
  import opened Collectables
  import opened Environment

  /** The overlap test of `detectRectangleCollision`.  All four comparisons
      are strict, so boxes that only share an edge do not collide. */
  predicate Overlaps(a: Rect, b: Rect)
  {
    a.x < b.x + b.width && a.x + a.width > b.x && a.y < b.y + b.length && a.y + a.length > b.y
  }

  /** The test does not depend on which box is the player's. */
  lemma OverlapsSymmetric(a: Rect, b: Rect)
    ensures Overlaps(a, b) <==> Overlaps(b, a)
  {
  }

  /** Touching edges are not an overlap. */
  lemma TouchingIsNotOverlap(a: Rect, b: Rect)
    requires a.x + a.width == b.x || b.x + b.width == a.x || a.y + a.length == b.y || b.y + b.length == a.y
    ensures !Overlaps(a, b)
  {
  }

  /** A point strictly inside a box. */
  predicate InBox(px: real, py: real, r: Rect)
  {
    r.x < px < r.x + r.width && r.y < py < r.y + r.length
  }

  /** Two boxes of positive extent overlap exactly when some point lies
      strictly inside both; a shared point means an overlap whatever the
      extents. */
  lemma OverlapsIffSharedPoint(a: Rect, b: Rect)
    ensures (exists px: real, py: real :: InBox(px, py, a) && InBox(px, py, b)) ==> Overlaps(a, b)
    ensures a.width > 0.0 && a.length > 0.0 && b.width > 0.0 && b.length > 0.0 ==>
              (Overlaps(a, b) <==> exists px: real, py: real :: InBox(px, py, a) && InBox(px, py, b))
  {
    if a.width > 0.0 && a.length > 0.0 && b.width > 0.0 && b.length > 0.0 && Overlaps(a, b) {
      var lo := if a.x < b.x then b.x else a.x;
      var hi := if a.x + a.width < b.x + b.width then a.x + a.width else b.x + b.width;
      var bottom := if a.y < b.y then b.y else a.y;
      var top := if a.y + a.length < b.y + b.length then a.y + a.length else b.y + b.length;
      var px := (lo + hi) / 2.0;
      var py := (bottom + top) / 2.0;
      assert InBox(px, py, a) && InBox(px, py, b);
    }
  }

  /** The entity the player is tested against, tagged by its kind. */
  datatype Other = EnemyOf(enemy: Enemy) | CollectableOf(item: Collectable) | HazardOf(hazard: Hazard)
  {
    function Body(): Entity
    {
      match this
      case EnemyOf(e) => e.body
      case CollectableOf(c) => c.body
      case HazardOf(h) => h.body
    }

    /** The same entity with its health set to 0. */
    function Defeated(): (o: Other)
      ensures o.Body() == Body().(health := 0.0)
    {
      match this
      case EnemyOf(e) => EnemyOf(e.(body := e.body.(health := 0.0)))
      case CollectableOf(c) => CollectableOf(c.(body := c.body.(health := 0.0)))
      case HazardOf(h) => HazardOf(h.(body := h.body.(health := 0.0)))
    }
  }

  predicate SameKind(a: Other, b: Other)
  {
    (a.EnemyOf? <==> b.EnemyOf?) && (a.CollectableOf? <==> b.CollectableOf?) && (a.HazardOf? <==> b.HazardOf?)
  }

  /** A detected overlap: both shapes are rectangles (anything else is only
      logged), both entities are alive, and their reported boxes overlap. */
  predicate Contact(p: Player, o: Other)
  {
    && p.body.shape == Rectangle && o.Body().shape == Rectangle
    && p.body.health > 0.0 && o.Body().health > 0.0
    && Overlaps(ShapeInfo(p.body), ShapeInfo(o.Body()))
  }

  /** Contact as geometry: both entities are living rectangles and some
      point lies strictly inside both reported boxes, which are squares of
      side `width` at the entities' positions. */
  lemma ContactIffSharedPoint(p: Player, o: Other)
    requires p.body.width > 0.0 && o.Body().width > 0.0
    ensures Contact(p, o) <==>
              && p.body.shape == Rectangle && o.Body().shape == Rectangle
              && p.body.health > 0.0 && o.Body().health > 0.0
              && exists px: real, py: real ::
                   && p.body.x < px < p.body.x + p.body.width && p.body.y < py < p.body.y + p.body.width
                   && InBox(px, py, ShapeInfo(o.Body()))
  {
    var a := ShapeInfo(p.body);
    var b := ShapeInfo(o.Body());
    OverlapsIffSharedPoint(a, b);
    assert forall px: real, py: real :: InBox(px, py, a) <==>
             p.body.x < px < p.body.x + p.body.width && p.body.y < py < p.body.y + p.body.width;
  }

  /** What one resolution leaves behind. */
  datatype Outcome = Outcome(player: Player, score: real, other: Other)

  /** The resolution of one pair.  A collectable is picked up (its value is
      added to the score and its health set to 0), an enemy is destroyed and
      its damage taken off the player's health, and a hazard contact has no
      effect at all. */
  function Resolve(p: Player, score: real, o: Other): (r: Outcome)
    ensures SameKind(r.other, o)
    ensures !Contact(p, o) ==> r == Outcome(p, score, o)
    ensures o.HazardOf? ==> r == Outcome(p, score, o)
    ensures Contact(p, o) && o.CollectableOf? ==>
              r == Outcome(p, score + o.item.value, o.Defeated())
    ensures Contact(p, o) && o.EnemyOf? ==>
              r.score == score && r.other == o.Defeated() &&
              r.player == p.(body := p.body.(health := p.body.health - o.enemy.damage))
  {
    if !Contact(p, o) then Outcome(p, score, o)
    else
      match o
      case CollectableOf(c) => Outcome(p, score + c.value, o.Defeated())
      case EnemyOf(e) => Outcome(p.(body := p.body.(health := p.body.health - e.damage)), score, o.Defeated())
      case HazardOf(_) => Outcome(p, score, o)
  }

  /** An entity a resolution can change. */
  predicate Resolvable(o: Other)
  {
    !o.HazardOf? && o.Body().health > 0.0
  }

  /** The player, score and list after a pass. */
  datatype Sweep = Sweep(player: Player, score: real, others: seq<Other>)

  /** One `forEach` of `detectCollision`: the player is resolved against each
      entity in list order, each seeing the player and score the earlier ones
      left.  Only the player's health can change, and once that health is
      ≤ 0 nothing more happens. */
  function Pass(p: Player, score: real, os: seq<Other>): (r: Sweep)
    ensures |r.others| == |os|
    ensures r.player == p.(body := p.body.(health := r.player.body.health))
    ensures p.body.health <= 0.0 ==> r == Sweep(p, score, os)
    decreases |os|
  {
    if |os| == 0 then Sweep(p, score, os)
    else
      var first := Resolve(p, score, os[0]);
      var rest := Pass(first.player, first.score, os[1..]);
      Sweep(rest.player, rest.score, [first.other] + rest.others)
  }

  /** What a pass may do to one list entry. */
  predicate Step(before: Other, after: Other)
  {
    SameKind(after, before) && (after == before || (Resolvable(before) && after == before.Defeated()))
  }

  /** Every entity is resolved at most once: each entry of the list is either
      left alone or, if it was a living enemy or collectable, set to health 0;
      no entry changes kind. */
  lemma {:induction false} PassChanges(p: Player, score: real, os: seq<Other>)
    ensures forall i :: 0 <= i < |os| ==> Step(os[i], Pass(p, score, os).others[i])
    decreases |os|
  {
    if |os| > 0 {
      var first := Resolve(p, score, os[0]);
      PassChanges(first.player, first.score, os[1..]);
      var r := Pass(p, score, os);
      var rest := Pass(first.player, first.score, os[1..]);
      assert r.others == [first.other] + rest.others;
      forall i | 0 <= i < |os|
        ensures Step(os[i], r.others[i])
      {
        if i > 0 {
          assert r.others[i] == rest.others[i - 1];
          assert os[i] == os[1..][i - 1];
        }
      }
    }
  }

  /** One step of a non-empty pass: the head is resolved first. */
  lemma PassUnfold(p: Player, score: real, os: seq<Other>)
    requires |os| > 0
    ensures Pass(p, score, os) ==
              var first := Resolve(p, score, os[0]);
              var rest := Pass(first.player, first.score, os[1..]);
              Sweep(rest.player, rest.score, [first.other] + rest.others)
  {
  }

  /** One step of a pass over a concatenation with a non-empty front. */
  lemma PassUnfoldAppend(p: Player, score: real, a: seq<Other>, b: seq<Other>)
    requires |a| > 0
    ensures Pass(p, score, a + b) ==
              var first := Resolve(p, score, a[0]);
              var rest := Pass(first.player, first.score, a[1..] + b);
              Sweep(rest.player, rest.score, [first.other] + rest.others)
  {
    assert (a + b)[0] == a[0];
    assert (a + b)[1..] == a[1..] + b;
    PassUnfold(p, score, a + b);
  }

  /** The step case of `PassAppend`: once the tail of `a` composes with `b`,
      so does `a` itself. */
  lemma PassAppendCons(p: Player, score: real, a: seq<Other>, b: seq<Other>, first: Outcome, tail: Sweep, rb: Sweep)
    requires |a| > 0
    requires first == Resolve(p, score, a[0])
    requires Pass(first.player, first.score, a[1..] + b) == Sweep(rb.player, rb.score, tail.others + rb.others)
    ensures Pass(p, score, a + b) == Sweep(rb.player, rb.score, ([first.other] + tail.others) + rb.others)
  {
    PassUnfoldAppend(p, score, a, b);
    assert [first.other] + (tail.others + rb.others) == ([first.other] + tail.others) + rb.others;
  }

  /** The passes compose: resolving `a + b` is resolving `a`, then `b` from
      where `a` left off. */
  lemma {:induction false} PassAppend(p: Player, score: real, a: seq<Other>, b: seq<Other>, ra: Sweep, rb: Sweep)
    requires ra == Pass(p, score, a)
    requires rb == Pass(ra.player, ra.score, b)
    ensures Pass(p, score, a + b) == Sweep(rb.player, rb.score, ra.others + rb.others)
    decreases |a|
  {
    if |a| == 0 {
      assert a + b == b;
    } else {
      var first := Resolve(p, score, a[0]);
      var tail := Pass(first.player, first.score, a[1..]);
      PassUnfold(p, score, a);
      PassAppend(first.player, first.score, a[1..], b, tail, rb);
      PassAppendCons(p, score, a, b, first, tail, rb);
    }
  }

  /** Three passes in a row are one pass over the concatenated lists. */
  lemma ThreePasses(p: Player, score: real, a: seq<Other>, b: seq<Other>, c: seq<Other>, ra: Sweep, rb: Sweep, rc: Sweep)
    requires ra == Pass(p, score, a)
    requires rb == Pass(ra.player, ra.score, b)
    requires rc == Pass(rb.player, rb.score, c)
    ensures Pass(p, score, a + b + c) == Sweep(rc.player, rc.score, ra.others + rb.others + rc.others)
  {
    PassAppend(p, score, a, b, ra, rb);
    PassAppend(p, score, a + b, c, Sweep(rb.player, rb.score, ra.others + rb.others), rc);
  }

  /** Once the player's health is ≤ 0 part-way through a list, the rest of
      the list is left exactly as it was. */
  lemma DeadPlayerStopsPass(p: Player, score: real, a: seq<Other>, b: seq<Other>)
    requires Pass(p, score, a).player.body.health <= 0.0
    ensures Pass(p, score, a + b).others == Pass(p, score, a).others + b
  {
    var ra := Pass(p, score, a);
    PassAppend(p, score, a, b, ra, Pass(ra.player, ra.score, b));
  }

  /** The points gained: the values of the collectables a pass changed. */
  function Gains(before: seq<Other>, after: seq<Other>): real
    requires |before| == |after|
    decreases |before|
  {
    if |before| == 0 then 0.0
    else
      (if before[0].CollectableOf? && after[0] != before[0] then before[0].item.value else 0.0)
      + Gains(before[1..], after[1..])
  }

  /** The health lost: the damages of the enemies a pass changed. */
  function Losses(before: seq<Other>, after: seq<Other>): real
    requires |before| == |after|
    decreases |before|
  {
    if |before| == 0 then 0.0
    else
      (if before[0].EnemyOf? && after[0] != before[0] then before[0].enemy.damage else 0.0)
      + Losses(before[1..], after[1..])
  }

  /** The pass's bookkeeping: the score grows by exactly the values of the
      collectables picked up and the player's health drops by exactly the
      damages of the enemies destroyed. */
  lemma {:induction false} PassAccounting(p: Player, score: real, os: seq<Other>)
    ensures Pass(p, score, os).score == score + Gains(os, Pass(p, score, os).others)
    ensures Pass(p, score, os).player.body.health == p.body.health - Losses(os, Pass(p, score, os).others)
    decreases |os|
  {
    if |os| > 0 {
      var first := Resolve(p, score, os[0]);
      PassAccounting(first.player, first.score, os[1..]);
      var r := Pass(p, score, os);
      assert r.others[1..] == Pass(first.player, first.score, os[1..]).others;
      assert r.others[0] == first.other;
    }
  }

  /** A list of hazards passes through untouched: the hazard branch detects
      overlaps but resolves nothing. */
  lemma {:induction false} HazardPassInert(p: Player, score: real, os: seq<Other>)
    requires forall i :: 0 <= i < |os| ==> os[i].HazardOf?
    ensures Pass(p, score, os) == Sweep(p, score, os)
    decreases |os|
  {
    if |os| > 0 {
      HazardPassInert(p, score, os[1..]);
      assert [os[0]] + os[1..] == os;
    }
  }

  /** The worked pickup example: a player box at (0, 0) of width 50 and a
      collectable box at (30, 30) of width 50 overlap, so the score grows by
      the value and the collectable is spent. */
  lemma PickupExample(p: Player, score: real, c: Collectable)
    requires p.body.shape == Rectangle && c.body.shape == Rectangle
    requires p.body.x == 0.0 && p.body.y == 0.0 && p.body.width == 50.0
    requires c.body.x == 30.0 && c.body.y == 30.0 && c.body.width == 50.0
    requires p.body.health > 0.0 && c.body.health > 0.0
    ensures Resolve(p, score, CollectableOf(c)).score == score + c.value
    ensures Resolve(p, score, CollectableOf(c)).other.Body().health == 0.0
  {
  }

  /** The worked enemy example: a player with health 100 touching a living
      enemy of damage 25 is left with 75, and the enemy with 0. */
  lemma EnemyHitExample(p: Player, e: Enemy)
    requires Contact(p, EnemyOf(e))
    requires p.body.health == 100.0 && e.damage == 25.0
    ensures Resolve(p, 0.0, EnemyOf(e)).player.body.health == 75.0
    ensures Resolve(p, 0.0, EnemyOf(e)).other.Body().health == 0.0
  {
  }
}
