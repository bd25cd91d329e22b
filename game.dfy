/** The world object: it owns the bodies and advances them one tick at a
    time. Each body's `update` is a method here that rewrites that body's
    entry of `bodies` in place and may append a new bullet with `AddBody`. */
module Simulation {
  import opened Entities
  import opened Collision
  import opened World

  class Game {
    /** The playfield, `canvas.width` by `canvas.height`. */
    var size: Vec
    var bodies: seq<Body>
    /** The id the next allocated body gets; stands for object allocation. */
    var nextId: nat
    /** How often the shooting sound has been rewound and played. */
    var shootSoundPlays: nat

    /** Every body is a distinct object, kept in creation order. (No box is
        inverted either, which the type `Extent` of a body's size ensures.) */
    ghost predicate Valid()
      reads this
    {
      IdsIncreasing(bodies) && forall i :: 0 <= i < |bodies| ==> bodies[i].id < nextId
    }

    /** `new Game(canvasId)` without the frame loop: 24 invaders, then the ship. */
    constructor (width: real, height: real)
      ensures Valid()
      ensures size == Vec(width, height) && shootSoundPlays == 0
      ensures |bodies| == FORMATION_SIZE + 1 && nextId == |bodies|
      ensures forall i :: 0 <= i < FORMATION_SIZE ==> bodies[i] == FormationInvader(0, i)
      ensures bodies[FORMATION_SIZE] == MakePlayer(FORMATION_SIZE, size)
    {
      var invaders := CreateInvaders(0);
      size := Vec(width, height);
      bodies := invaders + [MakePlayer(FORMATION_SIZE, Vec(width, height))];
      nextId := FORMATION_SIZE + 1;
      shootSoundPlays := 0;
    }

    /** `addBody(body)`: appends, with no check of any kind. */
    method AddBody(body: Body)
      modifies this
      ensures bodies == old(bodies) + [body]
      ensures size == old(size) && nextId == old(nextId) && shootSoundPlays == old(shootSoundPlays)
    {
      bodies := bodies + [body];
    }

    /** `new Bullet(center, velocity)`: a bullet that is a new object. */
    method NewBullet(center: Vec, velocity: Vec) returns (b: Body)
      modifies this
      ensures b == MakeBullet(old(nextId), center, velocity)
      ensures nextId == old(nextId) + 1
      ensures bodies == old(bodies) && size == old(size) && shootSoundPlays == old(shootSoundPlays)
    {
      b := MakeBullet(nextId, center, velocity);
      nextId := nextId + 1;
    }

    /** `Bullet.prototype.update`: moves the bullet by its velocity. */
    method UpdateBullet(i: nat)
      requires Valid() && i < |bodies| && bodies[i].kind.Bullet?
      modifies this
      ensures Valid()
      ensures |bodies| == |old(bodies)|
      ensures bodies[i].center == Plus(old(bodies[i].center), old(bodies[i].kind.velocity))
      ensures bodies[i].id == old(bodies[i].id) && bodies[i].size == old(bodies[i].size)
      ensures bodies[i].kind == old(bodies[i].kind)
      ensures forall j :: 0 <= j < |bodies| && j != i ==> bodies[j] == old(bodies[j])
      ensures bodies == old(bodies)[i := Advance(old(bodies[i]), map[])]
      ensures size == old(size) && nextId == old(nextId) && shootSoundPlays == old(shootSoundPlays)
    {
      var b := bodies[i];
      b := b.(center := Vec(b.center.x + b.kind.velocity.x, b.center.y + b.kind.velocity.y));
      bodies := bodies[i := b];
    }

    /** `Player.prototype.update`: the first held key of LEFT, RIGHT, SPACE
        decides the one action of the tick. SPACE fires a bullet from above
        the ship and rewinds and plays the shooting sound; there is no limit
        on the rate of fire. */
    method UpdatePlayer(i: nat, keys: KeyState) returns (fired: bool)
      requires Valid() && i < |bodies| && bodies[i].kind.Player?
      modifies this
      ensures Valid()
      ensures fired <==> !IsDown(keys, LEFT) && !IsDown(keys, RIGHT) && IsDown(keys, SPACE)
      ensures IsDown(keys, LEFT) ==>
                bodies == old(bodies)[i := old(bodies[i]).(center := Vec(old(bodies[i].center.x) - PLAYER_STEP, old(bodies[i].center.y)))]
      ensures !IsDown(keys, LEFT) && IsDown(keys, RIGHT) ==>
                bodies == old(bodies)[i := old(bodies[i]).(center := Vec(old(bodies[i].center.x) + PLAYER_STEP, old(bodies[i].center.y)))]
      ensures fired ==>
                bodies == old(bodies) + [MakeBullet(old(nextId),
                                                    Vec(old(bodies[i].center.x), old(bodies[i].center.y) - old(bodies[i].size.y) - MUZZLE_GAP),
                                                    PLAYER_BULLET_VELOCITY)]
      ensures !IsDown(keys, LEFT) && !IsDown(keys, RIGHT) && !IsDown(keys, SPACE) ==> bodies == old(bodies)
      ensures bodies[i].center.y == old(bodies[i].center.y)
      ensures nextId == old(nextId) + (if fired then 1 else 0)
      ensures shootSoundPlays == old(shootSoundPlays) + (if fired then 1 else 0)
      ensures size == old(size)
    {
      var p := bodies[i];
      fired := false;
      if IsDown(keys, LEFT) {
        bodies := bodies[i := p.(center := p.center.(x := p.center.x - PLAYER_STEP))];
      } else if IsDown(keys, RIGHT) {
        bodies := bodies[i := p.(center := p.center.(x := p.center.x + PLAYER_STEP))];
      } else if IsDown(keys, SPACE) {
        var bullet := NewBullet(Vec(p.center.x, p.center.y - p.size.y - MUZZLE_GAP), PLAYER_BULLET_VELOCITY);
        AddBody(bullet);
        shootSoundPlays := shootSoundPlays + 1;
        fired := true;
      }
    }

    /** `Invader.prototype.update`. The direction is reversed first when the
        patrol offset has left [0, 40]. The invader then fires when the draw
        `draws(cursor)` exceeds 0.995 and no invader is below it; the bullet's
        horizontal speed is the next draw minus 0.5. Last, centre and offset
        move by the speed. Returns the index of the next unused draw.
        `invadersBellow` reads only positions, sizes and kinds, so it gives
        the same answer whether or not the reversed speed is stored yet. */
    method UpdateInvader(i: nat, draws: nat -> real, cursor: nat) returns (next: nat, fired: bool)
      requires Valid() && i < |bodies| && bodies[i].kind.Invader?
      modifies this
      ensures Valid()
      ensures fired <==> draws(cursor) > FIRE_THRESHOLD && !InvadersBelow(old(bodies), old(bodies[i]))
      ensures next == cursor + (if fired then 2 else 1)
      ensures |bodies| == |old(bodies)| + (if fired then 1 else 0)
      ensures bodies[..|old(bodies)|] == old(bodies)[i := PatrolStep(old(bodies[i]))]
      ensures fired ==>
                bodies[|old(bodies)|] ==
                MakeBullet(old(nextId),
                           Vec(old(bodies[i].center.x), old(bodies[i].center.y) + old(bodies[i].size.y)),
                           Vec(draws(cursor + 1) - 0.5, INVADER_BULLET_SPEED_Y))
      ensures nextId == old(nextId) + (if fired then 1 else 0)
      ensures size == old(size) && shootSoundPlays == old(shootSoundPlays)
    {
      var inv := bodies[i];
      if inv.kind.patrolX < PATROL_LOW || inv.kind.patrolX > PATROL_HIGH {
        inv := inv.(kind := inv.kind.(speedX := -inv.kind.speedX));
      }
      next := cursor + 1;
      fired := false;
      if draws(cursor) > FIRE_THRESHOLD && !InvadersBelow(bodies, inv) {
        var bullet := NewBullet(Vec(inv.center.x, inv.center.y + inv.size.y), Vec(draws(next) - 0.5, INVADER_BULLET_SPEED_Y));
        next := next + 1;
        AddBody(bullet);
        fired := true;
      }
      inv := inv.(center := inv.center.(x := inv.center.x + inv.kind.speedX),
                  kind := inv.kind.(patrolX := inv.kind.patrolX + inv.kind.speedX));
      bodies := bodies[i := inv];
    }

    /** `this.bodies[i].update()`, dispatched on the kind of body. */
    method UpdateBodyAt(i: nat, keys: KeyState, draws: nat -> real, cursor: nat) returns (next: nat, fired: bool)
      requires Valid() && i < |bodies|
      modifies this
      ensures Valid()
      ensures cursor <= next <= cursor + 2
      ensures |bodies| == |old(bodies)| + (if fired then 1 else 0)
      ensures bodies[..|old(bodies)|] == old(bodies)[i := Advance(old(bodies[i]), keys)]
      ensures fired ==> IsShotFrom(bodies[|old(bodies)|], old(bodies[i]), old(nextId))
      ensures old(bodies[i]).kind.Bullet? ==> !fired && next == cursor
      ensures old(bodies[i]).kind.Player? ==>
                && (fired <==> !IsDown(keys, LEFT) && !IsDown(keys, RIGHT) && IsDown(keys, SPACE))
                && next == cursor
      ensures old(bodies[i]).kind.Invader? ==>
                && (fired <==> draws(cursor) > FIRE_THRESHOLD && !InvadersBelow(old(bodies), old(bodies[i])))
                && next == cursor + (if fired then 2 else 1)
                && (fired ==> bodies[|old(bodies)|].kind.velocity == Vec(draws(cursor + 1) - 0.5, INVADER_BULLET_SPEED_Y))
      ensures nextId == old(nextId) + (if fired then 1 else 0)
      ensures shootSoundPlays == old(shootSoundPlays) + (if fired && old(bodies[i]).kind.Player? then 1 else 0)
      ensures size == old(size)
    {
      match bodies[i].kind {
        case Bullet(_) =>
          UpdateBullet(i);
          next, fired := cursor, false;
        case Player =>
          fired := UpdatePlayer(i, keys);
          next := cursor;
        case Invader(_, _) =>
          next, fired := UpdateInvader(i, draws, cursor);
      }
    }

    /** One iteration of the pass in `UpdateAll`: the update of the body at
        the live index `i`, which keeps the shape and the counters of the
        pass. `s` are the bodies present when the pass began, `firstId` and
        `plays0` the allocation and sound counters then; `spawned'` and
        `spawners'` extend the record of fired bullets by the one this update
        fires, if any. */
    method PassIteration(i: nat, keys: KeyState, draws: nat -> real, cursor: nat,
                         ghost s: seq<Body>, ghost spawned: seq<Body>, ghost spawners: seq<nat>,
                         ghost firstId: nat, ghost plays0: int)
      returns (next: nat, ghost spawned': seq<Body>, ghost spawners': seq<nat>)
      requires Valid() && i < |bodies|
      requires PassShape(s, bodies, i, spawned, spawners, keys, firstId)
      requires PassCounts(s, i, cursor, shootSoundPlays - plays0, |spawned|, spawners)
      requires nextId == firstId + |spawned|
      modifies this
      ensures Valid() && size == old(size)
      ensures PassShape(s, bodies, i + 1, spawned', spawners', keys, firstId)
      ensures PassCounts(s, i + 1, next, shootSoundPlays - plays0, |spawned'|, spawners')
      ensures nextId == firstId + |spawned'|
    {
      ghost var before := bodies;
      ghost var plays := shootSoundPlays;
      if i >= |s| {
        assert bodies[i] == spawned[i - |s|];
      }
      var fired;
      next, fired := UpdateBodyAt(i, keys, draws, cursor);
      PassStep(s, before, bodies, i, spawned, spawners, keys, firstId, fired);
      CountStep(s, before[i], i, cursor, next, plays - plays0, shootSoundPlays - plays0, |spawned|, spawners, fired);
      if fired {
        spawned', spawners' := spawned + [bodies[|before|]], spawners + [i];
      } else {
        spawned', spawners' := spawned, spawners;
      }
    }

    /** The first half of `Game.prototype.update`: keep only the bodies that
        collide with no other body of the pre-tick snapshot. */
    method RemoveColliding()
      requires Valid()
      modifies this
      ensures bodies == Survivors(old(bodies))
      ensures Valid()
      ensures size == old(size) && nextId == old(nextId) && shootSoundPlays == old(shootSoundPlays)
    {
      SurvivorsExactly(bodies);
      bodies := Survivors(bodies);
      ghost var s := bodies;
      assert Valid() by {
        forall j | 0 <= j < |bodies|
          ensures bodies[j].id < nextId
        {
          assert bodies[j] in s;
        }
      }
    }

    /** The second half of `Game.prototype.update`: update every body in
        order by a live index, so that bullets appended during the pass are
        updated in the same pass (they append nothing, so the pass ends).
        Its outcome is the shape and the counters of a finished pass;
        `PassComplete` spells them out. */
    method UpdateAll(keys: KeyState, draws: nat -> real)
      returns (used: nat, ghost spawned: seq<Body>, ghost spawners: seq<nat>)
      requires Valid()
      modifies this
      ensures Valid()
      ensures PassShape(old(bodies), bodies, |bodies|, spawned, spawners, keys, old(nextId))
      ensures PassCounts(old(bodies), |bodies|, used, shootSoundPlays - old(shootSoundPlays), |spawned|, spawners)
      ensures nextId == old(nextId) + |spawned|
      ensures size == old(size)
    {
      ghost var s := bodies;
      spawned, spawners := [], [];
      used := 0;
      var i := 0;
      PassStart(s, keys, old(nextId));
      while i < |bodies|
        invariant Valid()
        invariant PassShape(s, bodies, i, spawned, spawners, keys, old(nextId))
        invariant nextId == old(nextId) + |spawned|
        invariant PassCounts(s, i, used, shootSoundPlays - old(shootSoundPlays), |spawned|, spawners)
        invariant size == old(size)
        decreases 2 * |s| - i
      {
        used, spawned, spawners := PassIteration(i, keys, draws, used, s, spawned, spawners, old(nextId), old(shootSoundPlays));
        i := i + 1;
      }
    }

    /** `Game.prototype.update`: drop every body that collides with another
        body of the pre-tick snapshot, then update the survivors by the live
        index pass. The survivors are each updated exactly once and keep
        their places; the bullets fired during the pass follow in firing
        order, each moved once; `spawners` gives the survivor that fired each
        of them, at most one bullet per survivor. The shooting sound plays
        once per bullet the ship fired. Returns the number of random draws
        used: one per surviving invader and one more per bullet an invader
        fired. */
    method Update(keys: KeyState, draws: nat -> real)
      returns (used: nat, ghost survivors: seq<Body>, ghost spawned: seq<Body>, ghost spawners: seq<nat>)
      requires Valid()
      modifies this
      ensures survivors == Survivors(old(bodies))
      ensures |bodies| == |survivors| + |spawned| <= 2 * |survivors|
      ensures forall j :: 0 <= j < |survivors| ==> bodies[j] == Advance(survivors[j], keys)
      ensures forall k :: 0 <= k < |spawned| ==>
                spawned[k].kind.Bullet? && bodies[|survivors| + k] == MoveBullet(spawned[k])
      ensures PassShape(survivors, bodies, |bodies|, spawned, spawners, keys, old(nextId))
      ensures Valid()
      ensures nextId == old(nextId) + |spawned|
      ensures shootSoundPlays == old(shootSoundPlays) + PlayerShots(survivors, spawners, |spawners|)
      ensures used == InvaderCount(survivors, |survivors|) + |spawned| - PlayerShots(survivors, spawners, |spawners|)
      ensures used <= 2 * |survivors|
      ensures size == old(size)
    {
      RemoveColliding();
      survivors := bodies;
      used, spawned, spawners := UpdateAll(keys, draws);
      PassComplete(survivors, bodies, used, shootSoundPlays - old(shootSoundPlays), spawned, spawners, keys, old(nextId));
    }
  }

  /** The state of the update pass after the live index has reached `i`:
      the survivors `s` come first, those before `i` updated once and the
      others not yet; after them come the bullets fired so far, in firing
      order, each fired by a distinct earlier survivor and allocated with
      consecutive ids from `firstId`, those before `i` moved once. */
  ghost predicate PassShape(s: seq<Body>, bodies: seq<Body>, i: nat, spawned: seq<Body>,
                            spawners: seq<nat>, keys: KeyState, firstId: nat)
  {
    && i <= |bodies| == |s| + |spawned|
    && |spawned| <= (if i < |s| then i else |s|)
    && (forall j :: 0 <= j < |s| ==> bodies[j] == if j < i then Advance(s[j], keys) else s[j])
    && |spawners| == |spawned|
    && (forall k :: 0 <= k < |spawned| ==>
          && spawners[k] < |s| && spawners[k] < i
          && IsShotFrom(spawned[k], s[spawners[k]], firstId + k)
          && bodies[|s| + k] == if |s| + k < i then MoveBullet(spawned[k]) else spawned[k])
    && (forall k1, k2 :: 0 <= k1 < k2 < |spawners| ==> spawners[k1] < spawners[k2])
  }

  /** How many of the first `n` bodies are invaders. */
  ghost function InvaderCount(s: seq<Body>, n: nat): (c: nat)
    requires n <= |s|
    ensures c <= n
  {
    if n == 0 then 0 else InvaderCount(s, n - 1) + (if s[n - 1].kind.Invader? then 1 else 0)
  }

  /** How many of the first `n` bullets, fired by the bodies `spawners` (indices
      into `s`), the ship fired. */
  ghost function PlayerShots(s: seq<Body>, spawners: seq<nat>, n: nat): (c: nat)
    requires n <= |spawners|
    ensures c <= n
  {
    if n == 0 then 0
    else PlayerShots(s, spawners, n - 1) + (if spawners[n - 1] < |s| && s[spawners[n - 1]].kind.Player? then 1 else 0)
  }

  /** Recording one more shooter does not change the count of the earlier ones. */
  lemma {:induction false} PlayerShotsSnoc(s: seq<Body>, spawners: seq<nat>, i: nat, n: nat)
    requires n <= |spawners|
    ensures PlayerShots(s, spawners + [i], n) == PlayerShots(s, spawners, n)
  {
    if n > 0 {
      PlayerShotsSnoc(s, spawners, i, n - 1);
      assert (spawners + [i])[n - 1] == spawners[n - 1];
    }
  }

  /** The counters of the pass after the live index has reached `i`: every
      surviving invader before `i` has used one draw and every bullet an
      invader fired one more, and the sound has played once per bullet the
      ship fired. */
  ghost predicate PassCounts(s: seq<Body>, i: nat, used: nat, plays: int, fired: nat, spawners: seq<nat>)
  {
    && |spawners| == fired
    && plays == PlayerShots(s, spawners, fired)
    && used == InvaderCount(s, if i < |s| then i else |s|) + fired - PlayerShots(s, spawners, fired)
  }

  /** One update keeps the counters of the pass. */
  lemma CountStep(s: seq<Body>, b: Body, i: nat, cursor: nat, next: nat, plays: int, plays': int,
                  fired: nat, spawners: seq<nat>, shot: bool)
    requires PassCounts(s, i, cursor, plays, fired, spawners)
    requires i < |s| ==> b == s[i]
    requires i >= |s| ==> b.kind.Bullet?
    requires b.kind.Bullet? ==> !shot && next == cursor
    requires b.kind.Player? ==> next == cursor
    requires b.kind.Invader? ==> next == cursor + (if shot then 2 else 1)
    requires plays' == plays + (if shot && b.kind.Player? then 1 else 0)
    ensures shot ==> PassCounts(s, i + 1, next, plays', fired + 1, spawners + [i])
    ensures !shot ==> PassCounts(s, i + 1, next, plays', fired, spawners)
  {
    if shot {
      PlayerShotsSnoc(s, spawners, i, fired);
    }
  }

  /** Before the first iteration nothing is updated and nothing is fired. */
  lemma PassStart(s: seq<Body>, keys: KeyState, firstId: nat)
    ensures PassShape(s, s, 0, [], [], keys, firstId)
    ensures PassCounts(s, 0, 0, 0, 0, [])
  {
  }

  /** At the end of the pass every survivor and every fired bullet has
      been updated once, the sound has played once per bullet the ship fired,
      and the draws used are one per invader and one per invader bullet. */
  lemma PassComplete(s: seq<Body>, bodies: seq<Body>, used: nat, plays: int, spawned: seq<Body>,
                     spawners: seq<nat>, keys: KeyState, firstId: nat)
    requires PassShape(s, bodies, |bodies|, spawned, spawners, keys, firstId)
    requires PassCounts(s, |bodies|, used, plays, |spawned|, spawners)
    ensures |bodies| == |s| + |spawned| <= 2 * |s|
    ensures forall j :: 0 <= j < |s| ==> bodies[j] == Advance(s[j], keys)
    ensures forall k :: 0 <= k < |spawned| ==> spawned[k].kind.Bullet? && bodies[|s| + k] == MoveBullet(spawned[k])
    ensures plays == PlayerShots(s, spawners, |spawners|)
    ensures used == InvaderCount(s, |s|) + |spawned| - PlayerShots(s, spawners, |spawners|)
    ensures used <= 2 * |s|
  {
  }

  /** One iteration of the pass keeps its shape. */
  lemma PassStep(s: seq<Body>, before: seq<Body>, after: seq<Body>, i: nat, spawned: seq<Body>,
                 spawners: seq<nat>, keys: KeyState, firstId: nat, fired: bool)
    requires PassShape(s, before, i, spawned, spawners, keys, firstId) && i < |before|
    requires |after| == |before| + (if fired then 1 else 0)
    requires after[..|before|] == before[i := Advance(before[i], keys)]
    requires fired ==> IsShotFrom(after[|before|], before[i], firstId + |spawned|)
    requires before[i].kind.Bullet? ==> !fired
    ensures fired ==> PassShape(s, after, i + 1, spawned + [after[|before|]], spawners + [i], keys, firstId)
    ensures !fired ==> PassShape(s, after, i + 1, spawned, spawners, keys, firstId)
  {
    if i >= |s| {
      assert before[i] == spawned[i - |s|];
    }
    forall j | 0 <= j < |before|
      ensures after[j] == before[i := Advance(before[i], keys)][j]
    {
      assert after[..|before|][j] == after[j];
    }
    if fired {
      var spawned' := spawned + [after[|before|]];
      var spawners' := spawners + [i];
      assert spawned'[|spawned|] == after[|before|];
      assert forall k :: 0 <= k < |spawned| ==> spawned'[k] == spawned[k] && spawners'[k] == spawners[k];
    }
  }
}
