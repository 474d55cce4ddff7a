// The animated characters of Apps/Siege.cpp: the sprite-sheet tables, the SpriteInfo records
// built from them, and class Character, whose methods pick an animation range on the sheet, step
// through its frames over time, take damage, die once, and move the sprite.
//
// Time (glfwGetTime) is a parameter. The Sprite class is not part of this model: a Character's
// sprite is the value Sprite below, recording only what the Character asks of it (its position,
// the last cell given to SetUVforFrame, and how many times Release was called).

module Siege {
  import opened Vectors

  // ---------------------------------------------------------------- C integer division

  function Abs(a: int): nat { if a < 0 then -a else a }

  /** C's a / b: the quotient truncated toward zero. */
  function CDiv(a: int, b: int): int
    requires b != 0
  {
    var q := Abs(a) / Abs(b);
    if (a >= 0) == (b > 0) then q else -q
  }

  /** C's a % b: the remainder takes the sign of a. */
  function CMod(a: int, b: int): int
    requires b != 0
  {
    var r := Abs(a) % Abs(b);
    if a >= 0 then r else -r
  }

  /** C's guarantee for / and %: (a / b) * b + a % b == a, with |a % b| < |b| and the remainder
      never of the opposite sign to a. */
  lemma CDivMod(a: int, b: int)
    requires b != 0
    ensures CDiv(a, b) * b + CMod(a, b) == a
    ensures Abs(CMod(a, b)) < Abs(b)
    ensures a >= 0 ==> CMod(a, b) >= 0
    ensures a <= 0 ==> CMod(a, b) <= 0
  {
    CDivModRecombines(a, b);
  }

  lemma CDivModRecombines(a: int, b: int)
    requires b != 0
    ensures CDiv(a, b) * b + CMod(a, b) == a
  {
    var q, r := Abs(a) / Abs(b), Abs(a) % Abs(b);
    assert q * Abs(b) + r == Abs(a);
    if a >= 0 && b > 0 {
    } else if a >= 0 {
      assert CDiv(a, b) * b == q * Abs(b);
    } else if b > 0 {
      assert CDiv(a, b) * b == -(q * Abs(b));
    } else {
      assert CDiv(a, b) * b == -(q * Abs(b));
    }
  }

  /** A frame on a sheet of rows x cols cells lies in row f / cols and column f % cols, both
      inside the sheet. */
  lemma FrameCell(f: int, rows: int, cols: int)
    requires cols > 0 && 0 <= f < rows * cols
    ensures CDiv(f, cols) * cols + CMod(f, cols) == f
    ensures 0 <= CDiv(f, cols) < rows
    ensures 0 <= CMod(f, cols) < cols
  {
    CDivMod(f, cols);
    var row := CDiv(f, cols);
    assert row * cols <= f < rows * cols;
    FactorIsSmaller(row, rows, cols);
  }

  /** A product with a positive factor is smaller only if the other factor is. */
  lemma FactorIsSmaller(a: int, b: int, c: int)
    requires c > 0 && a * c < b * c
    ensures a < b
  {
    assert (b - a) * c > 0;
  }

  // ---------------------------------------------------------------- the tables

  /** archerAnimations: four ranges of five frames on a 4 x 5 sheet. */
  const ArcherAnimations: seq<Int2> := [Int2(0, 4), Int2(5, 9), Int2(10, 14), Int2(15, 19)]

  /** barbarianAnimations: five ranges of five frames on a 5 x 5 sheet. */
  const BarbarianAnimations: seq<Int2> := [Int2(0, 4), Int2(5, 9), Int2(10, 14), Int2(15, 19), Int2(20, 24)]

  /** struct SpriteInfo: the sheet's shape, the speed, the table of ranges, which entry of the
      table each action uses, and the starting health and damage. */
  datatype SpriteInfo = SpriteInfo(rows: int, cols: int, nFrames: int, speed: real,
                                   animations: seq<Int2>, nAnimations: int,
                                   attack: int, moving: int, death: int, hurt: int,
                                   health: int, damage: int)

  const ArcherInfo: SpriteInfo :=
    SpriteInfo(4, 5, 4 * 5, 0.001, ArcherAnimations, |ArcherAnimations|, 0, 1, 3, 2, 100, 20)
  const BarbarianInfo: SpriteInfo :=
    SpriteInfo(5, 5, 5 * 5, 0.001, BarbarianAnimations, |BarbarianAnimations|, 3, 1, 0, 2, 100, 25)
  const EnemyBarbarianInfo: SpriteInfo :=
    SpriteInfo(5, 5, 5 * 5, 0.001, BarbarianAnimations, |BarbarianAnimations|, 3, 1, 0, 4, 100, 25)
  const WizardInfo: SpriteInfo :=
    SpriteInfo(4, 5, 4 * 5, 0.001, ArcherAnimations, |ArcherAnimations|, 0, 1, 3, 2, 100, 30)

  /** Every range {i1, i2} of the table is a non-empty run of cells of a rows x cols sheet. */
  predicate RangesFit(animations: seq<Int2>, rows: int, cols: int)
  {
    forall k :: 0 <= k < |animations| ==> 0 <= animations[k].i1 <= animations[k].i2 < rows * cols
  }

  /** A SpriteInfo a Character can run on: a non-empty sheet, a frame count inside it, a table
      whose count is its length and whose ranges fit the sheet, and action entries in the table. */
  predicate WellFormedInfo(info: SpriteInfo)
  {
    && info.rows > 0 && info.cols > 0
    && 1 <= info.nFrames <= info.rows * info.cols
    && info.nAnimations == |info.animations|
    && RangesFit(info.animations, info.rows, info.cols)
    && 0 <= info.attack < info.nAnimations && 0 <= info.moving < info.nAnimations
    && 0 <= info.death < info.nAnimations && 0 <= info.hurt < info.nAnimations
  }

  /** The four records of the game are well formed: each range of the table a record references
      lies on that record's sheet, and each action names an entry of the table. */
  lemma TablesAreWellFormed()
    ensures WellFormedInfo(ArcherInfo) && WellFormedInfo(BarbarianInfo)
    ensures WellFormedInfo(EnemyBarbarianInfo) && WellFormedInfo(WizardInfo)
  {
  }

  // ---------------------------------------------------------------- character state

  /** The cell last passed to SetUVforFrame(row, col, nRows, nCols). */
  datatype Cell = Cell(row: int, col: int, rows: int, cols: int)

  /** What the model keeps of a Sprite: its position, its current cell, and the number of
      Release calls it has received. */
  datatype Sprite = Sprite(position: Vec2, cell: Cell, releases: nat)

  /** Every field of a Character, as one value. */
  datatype CharacterState = CharacterState(
    sprite: Sprite, isMoving: bool, health: int, damage: int, speed: real, isDead: bool,
    currentAnimation: int, nRows: int, nCols: int, animations: seq<Int2>, nAnimations: int,
    attack: int, moving: int, death: int, hurt: int,
    startFrame: int, frame: int, nFrames: int, frameDuration: real, change: real)

  /** What the methods need so that they never divide by zero or read outside the table: a sheet
      with columns, a count no larger than the table, and non-negative action entries. */
  predicate Wired(c: CharacterState)
  {
    && c.nCols != 0 && 0 <= c.nAnimations <= |c.animations|
    && c.attack >= 0 && c.moving >= 0 && c.death >= 0 && c.hurt >= 0
  }

  /** The invariant of a character built from a well-formed SpriteInfo: the sheet is non-empty,
      the table's ranges fit it, and the current frame lies in the current range
      startFrame .. startFrame + nFrames - 1, which itself lies on the sheet. */
  predicate ValidState(c: CharacterState)
  {
    && Wired(c) && c.nRows > 0 && c.nCols > 0
    && RangesFit(c.animations, c.nRows, c.nCols)
    && 0 <= c.startFrame && 1 <= c.nFrames && c.startFrame + c.nFrames <= c.nRows * c.nCols
    && c.startFrame <= c.frame < c.startFrame + c.nFrames
  }

  /** In a valid state the current frame's cell is on the sheet. */
  lemma ValidFrameIsOnSheet(c: CharacterState)
    requires ValidState(c)
    ensures 0 <= CDiv(c.frame, c.nCols) < c.nRows && 0 <= CMod(c.frame, c.nCols) < c.nCols
  {
    FrameCell(c.frame, c.nRows, c.nCols);
  }

  // ---------------------------------------------------------------- the operations on values

  /** SetFrame(f): frame = f, and the sprite is given row f / nCols and column f % nCols. */
  function SetFrameSpec(c: CharacterState, f: int): (r: CharacterState)
    requires c.nCols != 0
    ensures r.frame == f
    ensures r.sprite.cell.row * c.nCols + r.sprite.cell.col == f
    ensures f >= 0 && c.nCols > 0 ==> 0 <= r.sprite.cell.col < c.nCols && r.sprite.cell.row >= 0
  {
    CDivMod(f, c.nCols);
    c.(frame := f, sprite := c.sprite.(cell := Cell(CDiv(f, c.nCols), CMod(f, c.nCols), c.nRows, c.nCols)))
  }

  /** SetAnimation(a): for a < nAnimations, the range {i1, i2} of entry a becomes current, with
      nFrames = i2 - i1 + 1, and the frame is set to its first cell; otherwise nothing changes. */
  function SetAnimationSpec(c: CharacterState, a: int): (r: CharacterState)
    requires Wired(c) && 0 <= a
    ensures Wired(r)
    ensures ValidState(c) ==> ValidState(r)
  {
    if a < c.nAnimations then
      var i := c.animations[a];
      SetFrameSpec(c.(nFrames := i.i2 - i.i1 + 1, currentAnimation := a, startFrame := i.i1), i.i1)
    else c
  }

  /** The frame after f in the range starting at start with n frames: the next one, or start again
      after the last. */
  function NextFrame(f: int, start: int, n: int): (r: int)
    ensures start <= f < start + n ==> start <= r < start + n
    ensures r == f + 1 || r == start
  {
    if f == start + n - 1 then start else f + 1
  }

  /** Animate() at time now: nothing unless now > change; then the next change is due a
      frameDuration later and the frame steps to the next one of the range. */
  function AnimateSpec(c: CharacterState, now: real): (r: CharacterState)
    requires Wired(c)
    ensures Wired(r)
    ensures ValidState(c) ==> ValidState(r)
  {
    if now > c.change then
      SetFrameSpec(c.(change := now + c.frameDuration), NextFrame(c.frame, c.startFrame, c.nFrames))
    else c
  }

  /** Attack(): the character stops and plays its attack animation. */
  function AttackSpec(c: CharacterState): (r: CharacterState)
    requires Wired(c)
    ensures Wired(r) && !r.isMoving
    ensures ValidState(c) ==> ValidState(r)
  {
    SetAnimationSpec(c.(isMoving := false), c.attack)
  }

  /** Moving(): the character walks and plays its moving animation. */
  function MovingSpec(c: CharacterState): (r: CharacterState)
    requires Wired(c)
    ensures Wired(r) && r.isMoving
    ensures ValidState(c) ==> ValidState(r)
  {
    SetAnimationSpec(c.(isMoving := true), c.moving)
  }

  /** Death(): the first time, the death animation is selected, the sprite released and the
      character marked dead; afterwards nothing changes. */
  function DeathSpec(c: CharacterState): (r: CharacterState)
    requires Wired(c)
    ensures Wired(r) && r.isDead
    ensures ValidState(c) ==> ValidState(r)
  {
    if !c.isDead then
      var d := SetAnimationSpec(c, c.death);
      d.(sprite := d.sprite.(releases := d.sprite.releases + 1), isDead := true)
    else c
  }

  /** Hurting(dmg): health drops by dmg and the character stops; at zero health or below it dies,
      otherwise it plays its hurt animation. */
  function HurtingSpec(c: CharacterState, dmg: int): (r: CharacterState)
    requires Wired(c)
    ensures Wired(r)
    ensures ValidState(c) ==> ValidState(r)
  {
    var h := c.(health := c.health - dmg, isMoving := false);
    if h.health <= 0 then DeathSpec(h) else SetAnimationSpec(h, h.hurt)
  }

  /** UpdatePosition(): a moving character's sprite advances by speed along x. */
  function UpdatePositionSpec(c: CharacterState): (r: CharacterState)
  {
    if c.isMoving then
      c.(sprite := c.sprite.(position := Vec2(c.sprite.position.x + c.speed, c.sprite.position.y)))
    else c
  }

  // ---------------------------------------------------------------- properties

  /** SetAnimation(a) with a < nAnimations selects entry a: the range, its length, the current
      index and the frame; with a >= nAnimations the state is left as it was. */
  lemma SetAnimationSelects(c: CharacterState, a: int)
    requires Wired(c) && 0 <= a
    ensures var r := SetAnimationSpec(c, a);
      if a < c.nAnimations then
        && r.nFrames == c.animations[a].i2 - c.animations[a].i1 + 1
        && r.currentAnimation == a
        && r.startFrame == r.frame == c.animations[a].i1
        && r.health == c.health && r.isDead == c.isDead && r.isMoving == c.isMoving
      else r == c
  {
  }

  /** Animate changes nothing until now passes change; once it does, the frame moves one step
      through the current range, and change is set to now + frameDuration. */
  lemma AnimateSteps(c: CharacterState, now: real)
    requires ValidState(c)
    ensures var r := AnimateSpec(c, now);
      && (now <= c.change ==> r == c)
      && (now > c.change ==> r.change == now + c.frameDuration && r.frame == NextFrame(c.frame, c.startFrame, c.nFrames)
                              && r.startFrame == c.startFrame && r.nFrames == c.nFrames)
      && r.startFrame <= r.frame < r.startFrame + r.nFrames
  {
  }

  /** NextFrame applied k times. */
  function Advance(f: int, start: int, n: int, k: nat): int
  {
    if k == 0 then f else NextFrame(Advance(f, start, n, k - 1), start, n)
  }

  /** Inside the range, k steps that do not pass the last frame climb by k. */
  lemma {:induction false} AdvanceClimbs(f: int, start: int, n: int, k: nat)
    requires start <= f && f + k <= start + n - 1
    ensures Advance(f, start, n, k) == f + k
  {
    if k > 0 {
      AdvanceClimbs(f, start, n, k - 1);
    }
  }

  /** a + b steps are a steps followed by b steps. */
  lemma {:induction false} AdvanceAdds(f: int, start: int, n: int, a: nat, b: nat)
    ensures Advance(f, start, n, a + b) == Advance(Advance(f, start, n, a), start, n, b)
  {
    if b > 0 {
      AdvanceAdds(f, start, n, a, b - 1);
    }
  }

  /** After nFrames steps the animation is back at the frame it started from: it climbs to the
      last frame of the range, wraps to the first, and climbs back. */
  lemma AnimationLoops(f: int, start: int, n: int)
    requires 0 < n && start <= f < start + n
    ensures Advance(f, start, n, n) == f
  {
    var last := start + n - 1;
    var d: nat := last - f;
    AdvanceClimbs(f, start, n, d);
    AdvanceAdds(f, start, n, d, 1);
    assert Advance(f, start, n, d + 1) == start;
    AdvanceAdds(f, start, n, d + 1, n - 1 - d);
    AdvanceClimbs(start, start, n, n - 1 - d);
  }

  /** Hurting(dmg) lowers health by exactly dmg and stops the character. It kills exactly when the
      new health is at most zero; otherwise the character keeps its alive-or-dead status and plays
      the hurt animation. */
  lemma HurtingTakesDamage(c: CharacterState, dmg: int)
    requires Wired(c)
    ensures var r := HurtingSpec(c, dmg);
      && r.health == c.health - dmg
      && !r.isMoving
      && (c.health - dmg <= 0 ==> r.isDead)
      && (c.health - dmg > 0 ==> r.isDead == c.isDead && r.sprite.releases == c.sprite.releases)
      && (c.health - dmg > 0 && c.hurt < c.nAnimations ==> r.currentAnimation == c.hurt)
  {
  }

  /** Death is idempotent, and the sprite is released once however often it is called. */
  lemma DeathIsIdempotent(c: CharacterState)
    requires Wired(c)
    ensures DeathSpec(DeathSpec(c)) == DeathSpec(c)
    ensures DeathSpec(c).sprite.releases == if c.isDead then c.sprite.releases else c.sprite.releases + 1
  {
  }

  /** A dying character that is hurt again stays dead, and its sprite is not released again. */
  lemma HurtingTheDeadReleasesNothing(c: CharacterState, dmg: int)
    requires Wired(c) && c.isDead
    ensures HurtingSpec(c, dmg).isDead
    ensures HurtingSpec(c, dmg).sprite.releases == c.sprite.releases
  {
  }

  /** Attack and Moving set the movement flag and select their own animations. */
  lemma AttackAndMovingSelect(c: CharacterState)
    requires Wired(c)
    ensures !AttackSpec(c).isMoving && MovingSpec(c).isMoving
    ensures c.attack < c.nAnimations ==> AttackSpec(c).currentAnimation == c.attack
    ensures c.moving < c.nAnimations ==> MovingSpec(c).currentAnimation == c.moving
    ensures AttackSpec(c).health == c.health && MovingSpec(c).health == c.health
  {
  }

  /** UpdatePosition moves x by exactly speed when moving, never changes y, and changes nothing
      when the character stands. */
  lemma UpdatePositionMoves(c: CharacterState)
    ensures var r := UpdatePositionSpec(c);
      && r.sprite.position.y == c.sprite.position.y
      && (c.isMoving ==> r.sprite.position.x == c.sprite.position.x + c.speed && r.frame == c.frame)
      && (!c.isMoving ==> r == c)
  {
  }

  // ---------------------------------------------------------------- class Character

  /** The time between frames. */
  const FrameDuration: real := 0.1

  class Character {
    var sprite: Sprite
    var isMoving: bool
    var health: int
    var damage: int
    var speed: real
    var isDead: bool
    var currentAnimation: int
    var nRows: int
    var nCols: int
    var animations: seq<Int2>
    var nAnimations: int
    var attack: int
    var moving: int
    var death: int
    var hurt: int
    var startFrame: int
    var frame: int
    var nFrames: int
    var frameDuration: real
    var change: real

    /** All fields, as one value. */
    function State(): CharacterState
      reads this
    {
      CharacterState(sprite, isMoving, health, damage, speed, isDead, currentAnimation, nRows, nCols,
                     animations, nAnimations, attack, moving, death, hurt,
                     startFrame, frame, nFrames, frameDuration, change)
    }

    predicate Valid()
      reads this
    {
      ValidState(State())
    }

    /** Character(): the field initializers, with no table (animations is null, nAnimations 0)
        and no sheet, and a change time of now + frameDuration. */
    constructor Default(s: Sprite, now: real)
      ensures State() == CharacterState(s, true, 100, 10, 0.0, false, 1, 0, 0, [], 0, 0, 0, 0, 0,
                                        0, 0, 0, FrameDuration, now + FrameDuration)
      ensures !Wired(State())
    {
      sprite, isMoving, health, damage, speed, isDead := s, true, 100, 10, 0.0, false;
      currentAnimation, nRows, nCols, animations, nAnimations := 1, 0, 0, [], 0;
      attack, moving, death, hurt := 0, 0, 0, 0;
      startFrame, frame, nFrames := 0, 0, 0;
      frameDuration := FrameDuration;
      change := now + FrameDuration;
    }

    /** Character(s, info): the sprite, the sheet, the table and the stats come from info; the
        frame starts at 0 of a range of info.nFrames frames. A well-formed info gives a valid
        character. */
    constructor (s: Sprite, info: SpriteInfo, now: real)
      ensures State() == CharacterState(s, true, info.health, info.damage, info.speed, false, 1,
                                        info.rows, info.cols, info.animations, info.nAnimations,
                                        info.attack, info.moving, info.death, info.hurt,
                                        0, 0, info.nFrames, FrameDuration, now + FrameDuration)
      ensures WellFormedInfo(info) ==> Valid()
    {
      isMoving, isDead, currentAnimation := true, false, 1;
      startFrame, frame := 0, 0;
      frameDuration := FrameDuration;
      change := now + FrameDuration;
      sprite := s;
      nRows := info.rows;
      nCols := info.cols;
      nFrames := info.nFrames;
      nAnimations := info.nAnimations;
      animations := info.animations;
      attack := info.attack;
      moving := info.moving;
      death := info.death;
      hurt := info.hurt;
      health := info.health;
      damage := info.damage;
      speed := info.speed;
    }

    method SetFrame(f: int)
      requires nCols != 0
      modifies this
      ensures State() == SetFrameSpec(old(State()), f)
    {
      frame := f;
      var row, col := CDiv(frame, nCols), CMod(frame, nCols);
      sprite := sprite.(cell := Cell(row, col, nRows, nCols));
    }

    method SetAnimation(a: int)
      requires Wired(State()) && 0 <= a
      modifies this
      ensures State() == SetAnimationSpec(old(State()), a)
      ensures old(Valid()) ==> Valid()
    {
      if a < nAnimations {
        var i := animations[a];
        nFrames := i.i2 - i.i1 + 1;
        currentAnimation := a;
        startFrame := i.i1;
        assert State() == old(State()).(nFrames := i.i2 - i.i1 + 1, currentAnimation := a, startFrame := i.i1);
        SetFrame(startFrame);
      }
    }

    method Animate(now: real)
      requires Wired(State())
      modifies this
      ensures State() == AnimateSpec(old(State()), now)
      ensures old(Valid()) ==> Valid()
    {
      if now > change {
        change := now + frameDuration;
        SetFrame(if frame == startFrame + nFrames - 1 then startFrame else frame + 1);
      }
    }

    method Attack()
      requires Wired(State())
      modifies this
      ensures State() == AttackSpec(old(State()))
      ensures old(Valid()) ==> Valid()
    {
      isMoving := false;
      SetAnimation(attack);
    }

    method Moving()
      requires Wired(State())
      modifies this
      ensures State() == MovingSpec(old(State()))
      ensures old(Valid()) ==> Valid()
    {
      isMoving := true;
      SetAnimation(moving);
    }

    method Hurting(dmg: int)
      requires Wired(State())
      modifies this
      ensures State() == HurtingSpec(old(State()), dmg)
      ensures old(Valid()) ==> Valid()
    {
      health := health - dmg;
      isMoving := false;
      assert State() == old(State()).(health := old(health) - dmg, isMoving := false);
      if health <= 0 {
        Death();
      } else {
        SetAnimation(hurt);
      }
    }

    method Death()
      requires Wired(State())
      modifies this
      ensures State() == DeathSpec(old(State()))
      ensures old(Valid()) ==> Valid()
    {
      if !isDead {
        SetAnimation(death);
        sprite := sprite.(releases := sprite.releases + 1);
        isDead := true;
      }
    }

    method UpdatePosition()
      modifies this
      ensures State() == UpdatePositionSpec(old(State()))
      ensures old(Valid()) ==> Valid()
    {
      if isMoving {
        var currentPosition := Vec2(sprite.position.x + speed, sprite.position.y);
        sprite := sprite.(position := currentPosition);
      }
    }
  }
}
