/** The frame-sequence animation player (class SpriteAnimation of game.js).
    An animation steps through its frames on a wall-clock cadence, either looping
    or playing once; a one-shot animation reports its completion to its owner. */
module Sprite {

  /** One loaded picture of an animation; only its identity matters to the simulation. */
  datatype Image = Image(url: string)

  /** Everything about a SpriteAnimation that its behaviour depends on, as a value:
      the number of frames, the time one frame is shown (ms), whether it loops,
      the current frame index, the time of the last advance and whether it plays. */
  datatype Anim = Anim(frameCount: nat, frameDuration: real, looping: bool,
                       frame: int, last: int, playing: bool)
  {
    /** The index names a frame whenever there is one, and is 0 when there is none. */
    predicate Valid() {
      0 <= frame && (frame < frameCount || frame == 0)
    }

    /** Enough time has passed since the last advance to show the next frame. */
    predicate Due(now: int) {
      (now - last) as real >= frameDuration
    }
  }

  function Min(a: int, b: int): int {
    if a <= b then a else b
  }

  /** A freshly constructed animation: frame 0, never advanced, playing and looping. */
  function Initial(frameCount: nat, frameDuration: real): (a: Anim)
    ensures a.Valid() && a.frameCount == frameCount && a.frameDuration == frameDuration
  {
    Anim(frameCount, frameDuration, true, 0, 0, true)
  }

  /** One call of update(now): the animation afterwards, and whether this call completed it. */
  function Advance(a: Anim, now: int): (Anim, bool)
  {
    if !a.playing || a.frameCount == 0 then (a, false)
    else if a.Due(now) then
      var next := a.frame + 1;
      if next >= a.frameCount then
        if a.looping then (a.(frame := 0, last := now), false)
        else (a.(frame := a.frameCount - 1, playing := false, last := now), true)
      else (a.(frame := next, last := now), false)
    else (a, false)
  }

  /** What one update does. */
  lemma AdvanceFacts(a: Anim, now: int)
    // the configuration never changes
    ensures Advance(a, now).0.frameCount == a.frameCount
    ensures Advance(a, now).0.frameDuration == a.frameDuration
    ensures Advance(a, now).0.looping == a.looping
    // stopped, empty or not yet due: nothing at all changes
    ensures !a.playing || a.frameCount == 0 || !a.Due(now) ==> Advance(a, now) == (a, false)
    // otherwise exactly one step: the index moves on by one, wrapping round when looping
    // and stopping at the last frame when not, and the advance time becomes now
    ensures a.playing && a.frameCount > 0 && a.Due(now) && a.Valid() ==>
      Advance(a, now).0.last == now &&
      Advance(a, now).0.frame == (if a.looping then (a.frame + 1) % a.frameCount
                                  else Min(a.frame + 1, a.frameCount - 1))
    // completion is reported exactly when a one-shot animation runs past its last frame,
    // and it is the only thing that stops playback
    ensures Advance(a, now).1 <==> a.playing && a.frameCount > 0 && a.Due(now) && !a.looping
                                   && a.frame + 1 >= a.frameCount
    ensures Advance(a, now).0.playing == (a.playing && !Advance(a, now).1)
    // the index stays in range
    ensures a.Valid() ==> Advance(a, now).0.Valid()
  {
  }

  /** reset(): back to frame 0, playing, with the advance time cleared. */
  function Restarted(a: Anim): (r: Anim)
    ensures r.Valid() && r.playing && r.frame == 0 && r.last == 0
    ensures r.frameCount == a.frameCount && r.frameDuration == a.frameDuration
    ensures r.looping == a.looping
  {
    a.(frame := 0, last := 0, playing := true)
  }

  /** stop(): playback is switched off and the frame is kept; every later update is inert. */
  function Stopped(a: Anim): (r: Anim)
    ensures r.frame == a.frame && !r.playing
    ensures r.last == a.last && r.looping == a.looping
    ensures r.frameCount == a.frameCount && r.frameDuration == a.frameDuration
    ensures forall now :: Advance(r, now) == (r, false)
  {
    a.(playing := false)
  }

  /** The animation after update is called at each of `times` in turn, and how many
      of those calls reported completion. */
  function Run(a: Anim, times: seq<int>): (Anim, nat)
    decreases |times|
  {
    if times == [] then (a, 0)
    else
      var (b, done) := Advance(a, times[0]);
      var (c, n) := Run(b, times[1..]);
      (c, n + if done then 1 else 0)
  }

  /** Each of `times` is at least one frame duration after the one before it
      (the first one after `last`): every update along them is due. */
  predicate Paced(last: int, times: seq<int>, frameDuration: real)
    decreases |times|
  {
    times == [] ||
    ((times[0] - last) as real >= frameDuration && Paced(times[0], times[1..], frameDuration))
  }

  /** A stopped or empty animation ignores every update. */
  lemma {:induction false} InertRun(a: Anim, times: seq<int>)
    requires !a.playing || a.frameCount == 0
    ensures Run(a, times) == (a, 0)
    decreases |times|
  {
    if times != [] {
      InertRun(a, times[1..]);
    }
  }

  /** Completion fires at most once over any run of updates: exactly once if playback
      stopped during the run, never otherwise. */
  lemma {:induction false} CompletesAtMostOnce(a: Anim, times: seq<int>)
    ensures Run(a, times).1 == if a.playing && !Run(a, times).0.playing then 1 else 0
    decreases |times|
  {
    if times != [] {
      var (b, done) := Advance(a, times[0]);
      if done {
        InertRun(b, times[1..]);
      } else {
        CompletesAtMostOnce(b, times[1..]);
      }
    }
  }

  /** A looping animation never completes and never stops by itself. */
  lemma {:induction false} LoopingNeverCompletes(a: Anim, times: seq<int>)
    requires a.looping
    ensures Run(a, times).1 == 0 && Run(a, times).0.playing == a.playing
    decreases |times|
  {
    if times != [] {
      LoopingNeverCompletes(Advance(a, times[0]).0, times[1..]);
    }
  }

  /** A playing one-shot animation with frames, updated at least once per frame duration,
      completes (once) after at most as many updates as it has frames left to show. */
  lemma {:induction false} OneShotCompletes(a: Anim, times: seq<int>)
    requires a.Valid() && a.playing && !a.looping && a.frameCount > 0
    requires Paced(a.last, times, a.frameDuration)
    requires |times| >= a.frameCount - a.frame
    ensures Run(a, times).1 == 1 && !Run(a, times).0.playing
    ensures Run(a, times).0.frame == a.frameCount - 1
    decreases |times|
  {
    var (b, done) := Advance(a, times[0]);
    if done {
      InertRun(b, times[1..]);
    } else {
      OneShotCompletes(b, times[1..]);
    }
  }

  /** A SpriteAnimation object: a frame sequence played at a fixed frame duration.
      The owner (an Enemy or an Effect) may switch looping off and is told, through the
      result of Update, when a one-shot animation completes. */
  class SpriteAnimation {
    const frames: seq<Image>
    const frameDuration: real
    var currentFrame: int
    var lastUpdateTime: int
    var isPlaying: bool
    var isLooping: bool

    function Model(): Anim
      reads this
    {
      Anim(|frames|, frameDuration, isLooping, currentFrame, lastUpdateTime, isPlaying)
    }

    constructor (frames: seq<Image>, frameDuration: real)
      ensures this.frames == frames
      ensures Model() == Initial(|frames|, frameDuration)
    {
      this.frames := frames;
      this.frameDuration := frameDuration;
      currentFrame := 0;
      lastUpdateTime := 0;
      isPlaying := true;
      isLooping := true;
    }

    /** update(currentTime); `completed` stands for the call of onComplete. */
    method Update(currentTime: int) returns (completed: bool)
      modifies this
      ensures (Model(), completed) == Advance(old(Model()), currentTime)
    {
      completed := false;
      if !isPlaying || |frames| == 0 {
        return;
      }
      if (currentTime - lastUpdateTime) as real >= frameDuration {
        currentFrame := currentFrame + 1;
        if currentFrame >= |frames| {
          if isLooping {
            currentFrame := 0;
          } else {
            currentFrame := |frames| - 1;
            isPlaying := false;
            completed := true;
          }
        }
        lastUpdateTime := currentTime;
      }
    }

    method Reset()
      modifies this
      ensures Model() == Restarted(old(Model()))
    {
      currentFrame := 0;
      isPlaying := true;
      lastUpdateTime := 0;
    }

    method Stop()
      modifies this
      ensures Model() == Stopped(old(Model()))
    {
      isPlaying := false;
    }
  }
}
