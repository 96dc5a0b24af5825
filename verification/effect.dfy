/** A one-shot visual effect (class Effect of game.js), such as the muzzle flash of a shot:
    it plays its animation once and is finished when the animation completes. */
module Effects {
  import opened Sprite

  /** Everything about an Effect that its behaviour depends on, as a value. */
  datatype EffectModel = EffectModel(anim: Anim, finished: bool)

  /** One call of update(now). */
  function EffectStepped(m: EffectModel, now: int): EffectModel
  {
    if m.finished then m
    else
      var (a, completed) := Advance(m.anim, now);
      EffectModel(a, completed)
  }

  /** The effect after update is called at each of `times` in turn. */
  function RunEffect(m: EffectModel, times: seq<int>): EffectModel
    decreases |times|
  {
    if times == [] then m else RunEffect(EffectStepped(m, times[0]), times[1..])
  }

  /** An unfinished effect is finished after a run of ticks exactly when its animation,
      played over the same ticks, has completed. */
  lemma {:induction false} FinishFollowsAnimation(m: EffectModel, times: seq<int>)
    requires !m.finished
    ensures RunEffect(m, times).finished <==> Run(m.anim, times).1 > 0
    decreases |times|
  {
    if times != [] {
      var s := EffectStepped(m, times[0]);
      if s.finished {
        FinishedStaysPut(s, times[1..]);
      } else {
        FinishFollowsAnimation(s, times[1..]);
      }
    }
  }

  /** A finished effect is inert. */
  lemma {:induction false} FinishedStaysPut(m: EffectModel, times: seq<int>)
    requires m.finished
    ensures RunEffect(m, times) == m
    decreases |times|
  {
    if times != [] {
      FinishedStaysPut(EffectStepped(m, times[0]), times[1..]);
    }
  }

  /** A new effect whose animation has n > 0 frames is finished after n ticks that are each
      at least one frame duration apart (the first measured from time 0): effects do
      not pile up. */
  lemma EffectExpires(frameCount: nat, frameDuration: real, times: seq<int>)
    requires frameCount > 0
    requires Paced(0, times, frameDuration)
    requires |times| >= frameCount
    ensures RunEffect(EffectModel(Initial(frameCount, frameDuration).(looping := false), false),
                      times).finished
  {
    var a := Initial(frameCount, frameDuration).(looping := false);
    OneShotCompletes(a, times);
    FinishFollowsAnimation(EffectModel(a, false), times);
  }

  /** An Effect object, anchored at (x, y). Its animation belongs to it alone, so it is
      held as an animation value. */
  class Effect {
    const x: int
    const y: int
    const width: int := 60
    const height: int := 60
    var animation: Anim
    var isFinished: bool

    function Model(): EffectModel
      reads this
    {
      EffectModel(animation, isFinished)
    }

    /** The constructor makes the animation it is given one-shot; the effect starts
        unfinished (isFinished is undefined, hence falsy, until the animation completes). */
    constructor (x: int, y: int, animation: Anim)
      ensures this.x == x && this.y == y
      ensures Model() == EffectModel(animation.(looping := false), false)
    {
      this.x := x;
      this.y := y;
      this.animation := animation.(looping := false);
      this.isFinished := false;
    }

    /** update(currentTime): the animation's completion is what finishes the effect. */
    method Update(currentTime: int)
      modifies this
      ensures Model() == EffectStepped(old(Model()), currentTime)
    {
      if !isFinished {
        var (a, completed) := Advance(animation, currentTime);
        animation := a;
        if completed {
          isFinished := true;
        }
      }
    }
  }
}
