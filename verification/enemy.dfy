/** An enemy (class Enemy of game.js): it crosses the screen horizontally while alive,
    plays a one-shot death animation once hit, and is dead when that animation completes. */
module Enemies {
  import opened GameConfig
  import opened Sprite

  datatype Option<T> = None | Some(value: T)

  datatype EnemyState = Alive | Dying | Dead

  /** Position of a state in the only order the life cycle allows: alive, dying, dead. */
  function Rank(s: EnemyState): nat {
    match s
    case Alive => 0
    case Dying => 1
    case Dead => 2
  }

  /** The point (px, py) lies in the closed box with top-left corner (left, top). */
  predicate InBox(px: int, py: int, left: int, top: int, width: int, height: int) {
    left <= px <= left + width && top <= py <= top + height
  }

  /** A box of the given width at x, moving in the given direction, has left a canvas
      of the given width through the edge it was heading for. */
  predicate Outside(x: int, width: int, direction: int, canvasWidth: int) {
    if direction == 1 then x > canvasWidth else x + width < 0
  }

  /** Everything about an Enemy that its behaviour depends on, as a value. The width and
      height are always DefaultEnemyWidth and DefaultEnemyHeight. */
  datatype EnemyModel = EnemyModel(x: int, y: int, direction: int, speed: int,
                                   state: EnemyState, move: Option<Anim>, death: Anim)

  /** One call of update(now). */
  function Stepped(m: EnemyModel, now: int): EnemyModel
  {
    match m.state
    case Alive =>
      m.(x := m.x + m.speed * m.direction,
         move := if m.move.Some? then Some(Advance(m.move.value, now).0) else None)
    case Dying =>
      var (d, completed) := Advance(m.death, now);
      m.(death := d, state := if completed then Dead else Dying)
    case Dead => m
  }

  /** What one tick does to an enemy. */
  lemma SteppedFacts(m: EnemyModel, now: int)
    // an alive enemy moves by speed * direction along x and stays alive; otherwise it stays put
    ensures m.state == Alive ==>
      Stepped(m, now).state == Alive && Stepped(m, now).x == m.x + m.speed * m.direction
    ensures m.state != Alive ==> Stepped(m, now).x == m.x
    ensures Stepped(m, now).y == m.y && Stepped(m, now).direction == m.direction
    ensures Stepped(m, now).speed == m.speed
    // the only transition a tick makes is dying -> dead, exactly when the death animation
    // completes
    ensures Stepped(m, now).state == m.state || (m.state == Dying && Stepped(m, now).state == Dead)
    ensures Stepped(m, now).state == Dead <==>
      m.state == Dead || (m.state == Dying && Advance(m.death, now).1)
    // only the animation of the current phase plays
    ensures m.state != Dying ==> Stepped(m, now).death == m.death
    ensures m.state != Alive ==> Stepped(m, now).move == m.move
    ensures m.state == Dying ==> Stepped(m, now).death == Advance(m.death, now).0
  {
  }

  /** die(): only an alive enemy is affected; it starts dying from the first death frame. */
  function Killed(m: EnemyModel): (r: EnemyModel)
    ensures r.state != Alive
    ensures m.state != Alive ==> r == m
    ensures m.state == Alive ==> r.state == Dying && r.death == Restarted(m.death)
    ensures r.x == m.x && r.y == m.y && r.move == m.move
  {
    if m.state == Alive then m.(state := Dying, death := Restarted(m.death)) else m
  }

  /** The enemy after update is called at each of `times` in turn. */
  function RunEnemy(m: EnemyModel, times: seq<int>): EnemyModel
    decreases |times|
  {
    if times == [] then m else RunEnemy(Stepped(m, times[0]), times[1..])
  }

  /** die() is idempotent. */
  lemma KilledTwice(m: EnemyModel)
    ensures Killed(Killed(m)) == Killed(m)
  {
  }

  /** Over any number of ticks an alive enemy stays alive, a dead one stays dead, and a
      dying one either stays dying or becomes dead: the life cycle never runs backwards. */
  lemma {:induction false} LifeCycleForward(m: EnemyModel, times: seq<int>)
    ensures m.state == Alive ==> RunEnemy(m, times).state == Alive
    ensures m.state == Dead ==> RunEnemy(m, times).state == Dead
    ensures Rank(m.state) <= Rank(RunEnemy(m, times).state)
    decreases |times|
  {
    if times != [] {
      LifeCycleForward(Stepped(m, times[0]), times[1..]);
    }
  }

  /** Once killed, an enemy is never alive again, whatever happens afterwards
      (so it can never be hit a second time). */
  lemma KilledStaysDown(m: EnemyModel, times: seq<int>)
    ensures RunEnemy(Killed(m), times).state != Alive
    ensures forall px, py :: !HitBy(RunEnemy(Killed(m), times), px, py)
  {
    LifeCycleForward(Killed(m), times);
  }

  /** A dying enemy is dead after a run of ticks exactly when its death animation,
      played over the same ticks, has completed; it does not move meanwhile. */
  lemma {:induction false} DeathFollowsAnimation(m: EnemyModel, times: seq<int>)
    requires m.state == Dying
    ensures RunEnemy(m, times).state == if Run(m.death, times).1 > 0 then Dead else Dying
    ensures RunEnemy(m, times).x == m.x
    decreases |times|
  {
    if times != [] {
      var s := Stepped(m, times[0]);
      if s.state == Dead {
        LifeCycleForward(s, times[1..]);
        DeadStaysPut(s, times[1..]);
      } else {
        DeathFollowsAnimation(s, times[1..]);
      }
    }
  }

  /** A dead enemy is inert. */
  lemma {:induction false} DeadStaysPut(m: EnemyModel, times: seq<int>)
    requires m.state == Dead
    ensures RunEnemy(m, times) == m
    decreases |times|
  {
    if times != [] {
      DeadStaysPut(Stepped(m, times[0]), times[1..]);
    }
  }

  /** With no death frames a dying enemy never becomes dead: its animation ignores every
      update, so the completion that would end it never comes. */
  lemma ZeroDeathFramesStayDying(m: EnemyModel, times: seq<int>)
    requires m.state == Dying && m.death.frameCount == 0
    ensures RunEnemy(m, times).state == Dying
  {
    DeathFollowsAnimation(m, times);
    InertRun(m.death, times);
  }

  /** An enemy killed with a one-shot death animation of n > 0 frames is dead after n ticks
      that are each at least one frame duration apart (the first measured from time 0,
      where die() puts the animation's clock). */
  lemma DeathTakesItsFrames(m: EnemyModel, times: seq<int>)
    requires m.state == Alive && !m.death.looping && m.death.frameCount > 0
    requires Paced(0, times, m.death.frameDuration)
    requires |times| >= m.death.frameCount
    ensures RunEnemy(Killed(m), times).state == Dead
  {
    var k := Killed(m);
    OneShotCompletes(k.death, times);
    DeathFollowsAnimation(k, times);
  }

  /** An alive enemy covers speed * direction per tick: after n ticks it is n steps on. */
  lemma {:induction false} SteadyMarch(m: EnemyModel, times: seq<int>)
    requires m.state == Alive
    ensures RunEnemy(m, times).state == Alive
    ensures RunEnemy(m, times).x == m.x + |times| * (m.speed * m.direction)
    ensures RunEnemy(m, times).y == m.y
    decreases |times|
  {
    if times != [] {
      var s := Stepped(m, times[0]);
      SteadyMarch(s, times[1..]);
      assert |times| * (m.speed * m.direction)
          == m.speed * m.direction + (|times| - 1) * (m.speed * m.direction);
    }
  }

  /** An enemy entering from the left at x = -80 with speed 3 on an 800-pixel canvas is
      out of bounds after exactly 294 ticks (the first n with -80 + 3n > 800). */
  lemma CrossingTime(m: EnemyModel, times: seq<int>)
    requires m.state == Alive && m.x == -DefaultEnemyWidth && m.direction == 1 && m.speed == 3
    ensures Outside(RunEnemy(m, times).x, DefaultEnemyWidth, 1, 800) <==> |times| >= 294
  {
    SteadyMarch(m, times);
  }

  /** A point hits an enemy when the enemy is alive and the point lies in its closed
      default-size box (checkHit). */
  predicate HitBy(m: EnemyModel, px: int, py: int) {
    m.state == Alive && InBox(px, py, m.x, m.y, DefaultEnemyWidth, DefaultEnemyHeight)
  }

  /** The hit box travels with an alive enemy: after n ticks a point hits it exactly when
      the point n steps back along its path hit it before. */
  lemma HitBoxTravels(m: EnemyModel, times: seq<int>, px: int, py: int)
    requires m.state == Alive
    ensures HitBy(RunEnemy(m, times), px, py) <==>
      HitBy(m, px - |times| * (m.speed * m.direction), py)
  {
    SteadyMarch(m, times);
  }

  /** An alive enemy that has left through the edge it was heading for, moving at a
      non-negative speed, stays out over any run of ticks: once a tick may remove it,
      every later tick may too. */
  lemma {:induction false} OutStaysOut(m: EnemyModel, times: seq<int>, canvasWidth: int)
    requires m.state == Alive && m.speed >= 0 && (m.direction == 1 || m.direction == -1)
    requires Outside(m.x, DefaultEnemyWidth, m.direction, canvasWidth)
    ensures RunEnemy(m, times).state == Alive
    ensures Outside(RunEnemy(m, times).x, DefaultEnemyWidth, m.direction, canvasWidth)
    decreases |times|
  {
    if times != [] {
      OutStaysOut(Stepped(m, times[0]), times[1..], canvasWidth);
    }
  }

  /** An Enemy object. Its two animations belong to it alone (no other object refers to
      them), so they are held as animation values, advanced with the same Advance that
      SpriteAnimation.Update is proved to perform. */
  class Enemy {
    var x: int
    const y: int
    const direction: int
    const width: int := DefaultEnemyWidth
    const height: int := DefaultEnemyHeight
    const speed: int
    var state: EnemyState
    var moveAnimation: Option<Anim>
    var deathAnimation: Anim

    function Model(): EnemyModel
      reads this
    {
      EnemyModel(x, y, direction, speed, state, moveAnimation, deathAnimation)
    }

    /** The constructor builds the death animation itself, from the death frames and the
        frame duration in force, and makes it one-shot; the move animation is handed in.
        An enemy always gets a death animation, possibly without frames: the caller always
        passes a frame list, and any list (even an empty one) is truthy. */
    constructor (x: int, y: int, direction: int, moveAnimation: Option<Anim>,
                 deathFrames: seq<Image>, speed: int, animSpeed: int)
      ensures Model() == EnemyModel(x, y, direction, speed, Alive, moveAnimation,
                                    Initial(|deathFrames|, animSpeed as real).(looping := false))
    {
      this.x := x;
      this.y := y;
      this.direction := direction;
      this.speed := speed;
      this.state := Alive;
      this.moveAnimation := moveAnimation;
      this.deathAnimation := Initial(|deathFrames|, animSpeed as real).(looping := false);
    }

    /** update(currentTime): an alive enemy moves and animates; a dying one plays its death
        animation, whose completion is what makes it dead. */
    method Update(currentTime: int)
      modifies this
      ensures Model() == Stepped(old(Model()), currentTime)
    {
      if state == Alive {
        x := x + speed * direction;
        if moveAnimation.Some? {
          var (m, _) := Advance(moveAnimation.value, currentTime);
          moveAnimation := Some(m);
        }
      } else if state == Dying {
        var (d, completed) := Advance(deathAnimation, currentTime);
        deathAnimation := d;
        if completed {
          state := Dead;
        }
      }
    }

    /** checkHit(mouseX, mouseY): closed bounding-box containment, and only while alive. */
    predicate CheckHit(px: int, py: int)
      reads this
    {
      HitBy(Model(), px, py)
    }

    /** die() */
    method Die()
      modifies this
      ensures Model() == Killed(old(Model()))
      ensures forall px, py :: !CheckHit(px, py)
    {
      if state == Alive {
        state := Dying;
        deathAnimation := Restarted(deathAnimation);
      }
    }

    /** isOutOfBounds(canvasWidth): past the edge the enemy is heading for. */
    predicate IsOutOfBounds(canvasWidth: int)
      reads this
    {
      Outside(x, width, direction, canvasWidth)
    }
  }
}
