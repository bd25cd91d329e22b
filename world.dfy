/** The pure part of the world: the collision filter that opens every tick,
    the "is another invader below me" query that suppresses invader fire, and
    the starting formation of invaders. */
module World {
  import opened Entities
  import opened Collision

  /** Bodies appear in the order they were created: every new object gets a
      larger id than all before it, so ids increase along the collection. */
  predicate IdsIncreasing(s: seq<Body>) {
    forall i, j :: 0 <= i < j < |s| ==> s[i].id < s[j].id
  }

  // ---------------------------------------------------------------------------
  // Collision filter

  /** The length of `snapshot.filter(b2 => colliding(b1, b2))`. */
  function CollisionCount(snapshot: seq<Body>, b1: Body): (n: nat)
    ensures n <= |snapshot|
  {
    if snapshot == [] then 0
    else (if Colliding(b1, snapshot[0]) then 1 else 0) + CollisionCount(snapshot[1..], b1)
  }

  /** `notCollidingWithAnything(b1)`: `b1` collides with no body of the
      snapshot. */
  predicate NotCollidingWithAnything(snapshot: seq<Body>, b1: Body): (r: bool)
    ensures r <==> CollisionFree(snapshot, b1)
  {
    CollisionCountZeroIff(snapshot, b1);
    CollisionCount(snapshot, b1) == 0
  }

  /** `candidates.filter(notCollidingWithAnything)` against `snapshot`. */
  function KeepNotColliding(snapshot: seq<Body>, candidates: seq<Body>): (r: seq<Body>)
    ensures |r| <= |candidates|
  {
    if candidates == [] then []
    else (if NotCollidingWithAnything(snapshot, candidates[0]) then [candidates[0]] else [])
         + KeepNotColliding(snapshot, candidates[1..])
  }

  /** The bodies that survive the collision pass of a tick: those of the
      list that collide with nothing in it, and no others. */
  function Survivors(bodies: seq<Body>): (r: seq<Body>)
    ensures |r| <= |bodies|
    ensures forall b :: b in r <==> b in bodies && CollisionFree(bodies, b)
  {
    KeepNotCollidingMembers(bodies, bodies);
    KeepNotColliding(bodies, bodies)
  }

  /** `b1` collides with nothing in `snapshot`. */
  ghost predicate CollisionFree(snapshot: seq<Body>, b1: Body) {
    forall j :: 0 <= j < |snapshot| ==> !Colliding(b1, snapshot[j])
  }

  lemma {:induction false} CollisionCountZeroIff(snapshot: seq<Body>, b1: Body)
    ensures CollisionCount(snapshot, b1) == 0 <==> CollisionFree(snapshot, b1)
  {
    if snapshot != [] {
      CollisionCountZeroIff(snapshot[1..], b1);
      assert forall j :: 1 <= j < |snapshot| ==> snapshot[j] == snapshot[1..][j - 1];
    }
  }

  lemma {:induction false} KeepNotCollidingMembers(snapshot: seq<Body>, candidates: seq<Body>)
    ensures forall b :: b in KeepNotColliding(snapshot, candidates) <==>
                        b in candidates && NotCollidingWithAnything(snapshot, b)
  {
    if candidates != [] {
      KeepNotCollidingMembers(snapshot, candidates[1..]);
      assert candidates == [candidates[0]] + candidates[1..];
    }
  }

  lemma {:induction false} KeepNotCollidingKeepsOrder(snapshot: seq<Body>, candidates: seq<Body>)
    requires IdsIncreasing(candidates)
    ensures IdsIncreasing(KeepNotColliding(snapshot, candidates))
  {
    if candidates != [] {
      var rest := KeepNotColliding(snapshot, candidates[1..]);
      KeepNotCollidingKeepsOrder(snapshot, candidates[1..]);
      KeepNotCollidingMembers(snapshot, candidates[1..]);
      forall b | b in rest
        ensures candidates[0].id < b.id
      {
        var k :| 0 <= k < |candidates[1..]| && candidates[1..][k] == b;
        assert candidates[k + 1] == b;
      }
    }
  }

  /** The collision filter keeps the bodies in their original order, and
      exactly those that overlap no other body of the pre-tick snapshot. */
  lemma SurvivorsExactly(bodies: seq<Body>)
    requires IdsIncreasing(bodies)
    ensures IdsIncreasing(Survivors(bodies))
    ensures forall b :: b in Survivors(bodies) <==> b in bodies && CollisionFree(bodies, b)
  {
    KeepNotCollidingKeepsOrder(bodies, bodies);
  }

  /** Two sequences in creation order with the same members are equal. */
  lemma {:induction false} OrderedByIdUnique(t1: seq<Body>, t2: seq<Body>)
    requires IdsIncreasing(t1) && IdsIncreasing(t2)
    requires forall b :: b in t1 <==> b in t2
    ensures t1 == t2
    decreases |t1| + |t2|, if t1 == [] then 1 else 0
  {
    if t1 != [] {
      assert t1[0] in t1;
      var k :| 0 <= k < |t2| && t2[k] == t1[0];
      assert t2[0] in t2;
      var m :| 0 <= m < |t1| && t1[m] == t2[0];
      assert t1[0].id <= t1[m].id;
      assert t2[0].id <= t2[k].id;
      assert k == 0;
      forall b
        ensures b in t1[1..] <==> b in t2[1..]
      {
        if b in t1[1..] {
          var i :| 1 <= i < |t1| && t1[i] == b;
          assert b in t2 && b != t2[0];
          var j :| 0 <= j < |t2| && t2[j] == b;
          assert j != 0 && t2[1..][j - 1] == b;
        }
        if b in t2[1..] {
          var j :| 1 <= j < |t2| && t2[j] == b;
          assert b in t1 && b != t1[0];
          var i :| 0 <= i < |t1| && t1[i] == b;
          assert i != 0 && t1[1..][i - 1] == b;
        }
      }
      OrderedByIdUnique(t1[1..], t2[1..]);
      assert t1 == [t1[0]] + t1[1..] && t2 == [t2[0]] + t2[1..];
    } else if t2 != [] {
      OrderedByIdUnique(t2, t1);
    }
  }

  /** So the collision filter is the only sequence in creation order with
      exactly the collision-free bodies as members. */
  lemma SurvivorsCharacterised(bodies: seq<Body>, kept: seq<Body>)
    requires IdsIncreasing(bodies) && IdsIncreasing(kept)
    requires forall b :: b in kept <==> b in bodies && CollisionFree(bodies, b)
    ensures kept == Survivors(bodies)
  {
    SurvivorsExactly(bodies);
    OrderedByIdUnique(kept, Survivors(bodies));
  }

  /** Both bodies of any overlapping pair are removed. */
  lemma OverlappingPairRemoved(bodies: seq<Body>, i: nat, j: nat)
    requires IdsIncreasing(bodies)
    requires i < |bodies| && j < |bodies| && i != j
    requires BoxesOverlap(bodies[i], bodies[j])
    ensures bodies[i] !in Survivors(bodies) && bodies[j] !in Survivors(bodies)
  {
    SurvivorsExactly(bodies);
    assert bodies[i].id != bodies[j].id;
    CollidingIffBoxesOverlap(bodies[i], bodies[j]);
    CollidingIsSymmetric(bodies[i], bodies[j]);
  }

  /** Two overlapping bullets and an invader clear of both: the bullets go,
      the invader stays. */
  lemma TwoBulletsCollideInvaderSurvives()
    ensures var b1 := MakeBullet(0, Vec(100.0, 100.0), Vec(0.0, -7.0));
            var b2 := MakeBullet(1, Vec(101.0, 101.0), Vec(0.0, 2.0));
            var inv := MakeInvader(2, Vec(35.0, 35.0));
            Survivors([b1, b2, inv]) == [inv]
  {
  }

  // ---------------------------------------------------------------------------
  // Invaders below

  /** `b` is an invader further down the screen whose width covers the
      horizontal position `at`. */
  predicate Blocks(b: Body, at: Vec) {
    b.kind.Invader? && Abs(at.x - b.center.x) < b.size.x && b.center.y > at.y
  }

  /** The length of the filter in `invadersBellow`, for an invader at `at`. */
  function BlockerCount(bodies: seq<Body>, at: Vec): (n: nat)
    ensures n <= |bodies|
  {
    if bodies == [] then 0
    else (if Blocks(bodies[0], at) then 1 else 0) + BlockerCount(bodies[1..], at)
  }

  /** `invadersBellow(invader)`: some invader of the list blocks the asking
      invader's line of fire. */
  predicate InvadersBelow(bodies: seq<Body>, invader: Body): (r: bool)
    ensures r <==> exists j :: 0 <= j < |bodies| && Blocks(bodies[j], invader.center)
  {
    BlockerCountPositiveIff(bodies, invader.center);
    BlockerCount(bodies, invader.center) > 0
  }

  lemma {:induction false} BlockerCountPositiveIff(bodies: seq<Body>, at: Vec)
    ensures BlockerCount(bodies, at) > 0 <==> exists j :: 0 <= j < |bodies| && Blocks(bodies[j], at)
  {
    if bodies != [] {
      BlockerCountPositiveIff(bodies[1..], at);
      if BlockerCount(bodies[1..], at) > 0 {
        var j :| 0 <= j < |bodies[1..]| && Blocks(bodies[1..][j], at);
        assert Blocks(bodies[j + 1], at);
      }
      if exists j :: 0 <= j < |bodies| && Blocks(bodies[j], at) {
        var j :| 0 <= j < |bodies| && Blocks(bodies[j], at);
        if j > 0 {
          assert Blocks(bodies[1..][j - 1], at);
        }
      }
    }
  }

  lemma {:induction false} BlockerCountAppend(s: seq<Body>, t: seq<Body>, at: Vec)
    ensures BlockerCount(s + t, at) == BlockerCount(s, at) + BlockerCount(t, at)
  {
    if s != [] {
      BlockerCountAppend(s[1..], t, at);
      assert (s + t)[1..] == s[1..] + t;
    } else {
      assert s + t == t;
    }
  }

  /** The query never counts the asking invader itself, whose own centre is
      not strictly below itself. */
  lemma InvadersBelowIgnoresSelf(bodies: seq<Body>, i: nat)
    requires i < |bodies|
    ensures InvadersBelow(bodies, bodies[i]) == InvadersBelow(bodies[..i] + bodies[i + 1..], bodies[i])
  {
    var at := bodies[i].center;
    assert bodies == bodies[..i] + [bodies[i]] + bodies[i + 1..];
    BlockerCountAppend(bodies[..i] + [bodies[i]], bodies[i + 1..], at);
    BlockerCountAppend(bodies[..i], [bodies[i]], at);
    BlockerCountAppend(bodies[..i], bodies[i + 1..], at);
    assert BlockerCount([bodies[i]], at) == 0;
  }

  // ---------------------------------------------------------------------------
  // Starting formation

  const FORMATION_SIZE: nat := 24

  /** Invader `i` of the formation: column `i % 8`, row `i % 3`, 30 apart,
      the first at (35, 35). */
  function FormationInvader(firstId: nat, i: nat): Body {
    MakeInvader(firstId + i, Vec((35 + (i % 8) * 30) as real, (35 + (i % 3) * 30) as real))
  }

  /** `createInvaders`, allocating the invaders' ids from `firstId` on. */
  method CreateInvaders(firstId: nat) returns (invaders: seq<Body>)
    ensures |invaders| == FORMATION_SIZE
    ensures forall i :: 0 <= i < |invaders| ==> invaders[i] == FormationInvader(firstId, i)
    ensures forall i :: 0 <= i < |invaders| ==> invaders[i].kind == Invader(0.0, INVADER_SPEED)
    ensures IdsIncreasing(invaders)
  {
    invaders := [];
    var i := 0;
    while i < FORMATION_SIZE
      invariant 0 <= i <= FORMATION_SIZE && |invaders| == i
      invariant forall k :: 0 <= k < i ==> invaders[k] == FormationInvader(firstId, k)
    {
      var x := 35 + (i % 8) * 30;
      var y := 35 + (i % 3) * 30;
      invaders := invaders + [MakeInvader(firstId + i, Vec(x as real, y as real))];
      i := i + 1;
    }
  }

  /** The 24 (column, row) pairs are all different. */
  lemma FormationCellsDistinct(i: nat, j: nat)
    requires i < j < FORMATION_SIZE
    ensures i % 8 != j % 8 || i % 3 != j % 3
  {
    if i % 8 == j % 8 {
      assert j == i + 8 || j == i + 16;
    }
  }

  /** No two invaders of the starting formation collide, so none is removed
      by another at the first tick. */
  lemma FormationCollisionFree(firstId: nat, i: nat, j: nat)
    requires i < FORMATION_SIZE && j < FORMATION_SIZE
    ensures !Colliding(FormationInvader(firstId, i), FormationInvader(firstId, j))
  {
    if i < j {
      FormationCellsDistinct(i, j);
    } else if j < i {
      FormationCellsDistinct(j, i);
    }
  }
}
