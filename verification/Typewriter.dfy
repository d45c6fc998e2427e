/**
  * The writer that lets streamed text appear smoothly: pushed text waits in a buffer, and every animation
  * frame moves a few characters of it to the target.
  */
module Typewriter {
  import opened Prelude

  class Target {
    var content: string

    constructor (content: string)
      ensures this.content == content
    {
      this.content := content;
    }
  }

  predicate IsPunctuation(c: char) { c in "，。！？；：、\n.,!?;:" }

  function Min(a: int, b: int): int { if a < b then a else b }

  function Max(a: int, b: int): int { if a > b then a else b }

  function CeilDiv(n: nat, d: nat): nat
    requires d > 0
  {
    (n + d - 1) / d
  }

  /** How many characters a frame shows; `coin` stands for the comparison with Math.random(). */
  function Step(len: nat, finishing: bool, coin: bool): (step: nat)
    ensures len > 0 ==> 1 <= step <= 20
    ensures len > 0 ==> step <= len
  {
    if len == 0 then 0
    else if finishing then
      if len <= 4 then 1 else if len <= 15 then 2 else if len <= 50 then 3
      else Min(20, Max(4, CeilDiv(len, 10)))
    else if len <= 8 then 1
    else if len <= 25 then if coin then 1 else 2
    else if len <= 80 then if coin then 2 else 3
    else if len <= 250 then Min(8, Max(3, CeilDiv(len, 25)))
    else Min(20, Max(6, CeilDiv(len, 16)))
  }

  /** `step` is the quotient of `len` and `d`, rounded up, brought within the two bounds. */
  predicate IsPart(step: int, len: int, d: int, low: int, high: int) {
    && low <= step <= high
    && (step > low ==> d * (step - 1) < len)
    && (step < high ==> len <= d * step)
  }

  /**
    * The speed by backlog: one character up to 8 waiting, one or two up to 25, two or three up to 80, a 25th up to
    * 250, 3 to 8 of them, and beyond that a 16th, 6 to 20 of them. At the end one up to 4, two up to 15, three up
    * to 50, and else a tenth, 4 to 20 of them.
    */
  lemma {:induction false} SpeedByBacklog(len: nat, coin: bool)
    ensures len == 0 ==> Step(len, false, coin) == Step(len, true, coin) == 0
    ensures var step := Step(len, false, coin);
            && (0 < len <= 8 ==> step == 1)
            && (8 < len <= 25 ==> step == if coin then 1 else 2)
            && (25 < len <= 80 ==> step == if coin then 2 else 3)
            && (80 < len <= 250 ==> IsPart(step, len, 25, 3, 8))
            && (250 < len ==> IsPart(step, len, 16, 6, 20))
    ensures var step := Step(len, true, coin);
            && (0 < len <= 4 ==> step == 1) && (4 < len <= 15 ==> step == 2) && (15 < len <= 50 ==> step == 3)
            && (50 < len ==> IsPart(step, len, 10, 4, 20))
  {
  }

  class SmoothStreamWriter {
    const target: Target
    var buf: string
    /** The frame that will call Tick, if one is requested. */
    var rafId: Option<nat>
    var nextFrame: nat
    var running: bool
    var closed: bool
    var isFinishing: bool
    var pauseFrames: nat
    /** The callers of Finish that wait, and those that have been told. */
    var finishResolvers: seq<int>
    var resolved: seq<int>

    ghost const initial: string
    /** Everything pushed while the writer was open, and every caller of Finish. */
    ghost var pushed: string
    ghost var waiters: multiset<int>

    /** Nothing is lost and nothing shown twice; every waiter is waiting or has been told, once. */
    ghost predicate Accounted()
      reads this, target
    {
      && pauseFrames <= 2
      && target.content + buf == initial + pushed
      && multiset(finishResolvers) + multiset(resolved) == waiters
    }

    ghost predicate Valid()
      reads this, target
    {
      && Accounted()
      && running == !closed
      && (closed ==> buf == "" && rafId == None && finishResolvers == [])
      // there is always a next frame to continue with
      && (buf != "" ==> rafId.Some?)
      && (isFinishing && !closed ==> buf != "")
      && (finishResolvers != [] ==> isFinishing)
    }

    /** Falls with every frame that finds text in the buffer. */
    function Remaining(): nat
      reads this
    {
      3 * |buf| + pauseFrames
    }

    constructor (target: Target)
      ensures Valid() && this.target == target && buf == "" && !closed && !isFinishing
      ensures initial == target.content && pushed == "" && waiters == multiset{} && rafId.Some?
      ensures target.content == old(target.content)
    {
      this.target := target;
      buf, rafId, nextFrame := "", None, 0;
      running, closed, isFinishing, pauseFrames := true, false, false, 0;
      finishResolvers, resolved := [], [];
      initial, pushed, waiters := target.content, "", multiset{};
      new;
      Schedule();
    }

    method Schedule()
      modifies this`rafId, this`nextFrame
      ensures !running || closed || old(rafId).Some? ==> rafId == old(rafId)
      ensures running && !closed ==> rafId.Some?
    {
      if !running || closed || rafId.Some? {
        return;
      }
      rafId, nextFrame := Some(nextFrame), nextFrame + 1;
    }

    /** Text pushed after the end is dropped. */
    method Push(text: string)
      requires Valid()
      modifies this
      ensures Valid() && closed == old(closed) && isFinishing == old(isFinishing) && resolved == old(resolved)
      ensures waiters == old(waiters) && finishResolvers == old(finishResolvers)
      ensures buf == old(buf) + (if closed then "" else text)
      ensures pushed == old(pushed) + (if closed then "" else text)
    {
      if closed || text == "" {
        return;
      }
      assert target.content + (buf + text) == (target.content + buf) + text;
      assert initial + (pushed + text) == (initial + pushed) + text;
      buf := buf + text;
      pushed := pushed + text;
      if rafId.None? && running {
        Schedule();
      }
    }

    method Stop()
      modifies this`closed, this`running, this`rafId
      ensures closed && !running && rafId == None
    {
      closed, running, rafId := true, false, None;
    }

    method ResolveFinish()
      requires Accounted() && buf == ""
      modifies this`closed, this`running, this`rafId, this`finishResolvers, this`resolved
      ensures Valid() && closed && resolved == old(resolved) + old(finishResolvers)
    {
      Stop();
      resolved, finishResolvers := resolved + finishResolvers, [];
    }

    /**
      * The requested frame: it shows a first part of the buffer, or counts down a pause. The last one of a
      * finishing writer closes it and tells all waiters.
      */
    method Tick(coin: bool)
      requires Valid() && rafId.Some?
      modifies this, target
      ensures Valid() && waiters == old(waiters) && pushed == old(pushed) && isFinishing == old(isFinishing)
      ensures old(target.content) <= target.content && |target.content| <= |old(target.content)| + 20
      ensures old(buf) != "" ==> Remaining() < old(Remaining())
      ensures old(buf) != "" && old(pauseFrames) == 0 ==> |buf| < |old(buf)|
      ensures old(buf) == "" ==> buf == "" && (!isFinishing ==> rafId == None && !closed)
      ensures closed <==> isFinishing && buf == ""
      ensures closed ==> resolved == old(resolved) + old(finishResolvers)
      ensures !closed ==> resolved == old(resolved) && finishResolvers == old(finishResolvers)
    {
      rafId := None;
      if pauseFrames > 0 {
        pauseFrames := pauseFrames - 1;
        if buf != "" {
          Schedule();
        }
        return;
      }
      if buf == "" {
        return;
      }
      ShowSome(coin);
    }

    /** The part of a frame that shows something, and what comes after it. */
    method ShowSome(coin: bool)
      requires Accounted() && running && !closed && rafId == None && (finishResolvers != [] ==> isFinishing)
      requires buf != "" && pauseFrames == 0
      modifies this, target
      ensures Valid() && waiters == old(waiters) && pushed == old(pushed) && isFinishing == old(isFinishing)
      ensures exists step :: 1 <= step <= 20 && step <= |old(buf)|
                             && target.content == old(target.content) + old(buf)[..step] && buf == old(buf)[step..]
      ensures closed <==> isFinishing && buf == ""
      ensures closed ==> resolved == old(resolved) + old(finishResolvers)
      ensures !closed ==> resolved == old(resolved) && finishResolvers == old(finishResolvers)
    {
      var step := ChooseStep(coin);
      Show(step);
      if buf != "" {
        Schedule();
      } else if isFinishing {
        ResolveFinish();
      }
    }

    /** A punctuation mark comes alone and is followed by a pause; a step never exceeds the buffer. */
    method ChooseStep(coin: bool) returns (step: nat)
      requires buf != "" && pauseFrames == 0
      modifies this`pauseFrames
      ensures 1 <= step <= 20 && step <= |buf| && pauseFrames <= 2
    {
      if IsPunctuation(buf[0]) && !isFinishing && |buf| < 50 {
        step := 1;
        pauseFrames := if buf[0] == '\n' then 2 else 1;
      } else {
        step := Step(|buf|, isFinishing, coin);
      }
    }

    /** Moves the first `step` characters to the target. */
    method Show(step: nat)
      requires Accounted() && step <= |buf|
      modifies this`buf, target
      ensures Accounted() && buf == old(buf)[step..] && target.content == old(target.content) + old(buf)[..step]
    {
      assert target.content + buf == (target.content + buf[..step]) + buf[step..];
      target.content := target.content + buf[..step];
      buf := buf[step..];
    }

    /** A caller waits until the buffer is shown; it is told at once if there is nothing to wait for. */
    method Finish(waiter: int)
      requires Valid()
      modifies this
      ensures Valid() && waiters == old(waiters) + multiset{waiter} && pushed == old(pushed) && buf == old(buf)
      ensures closed <==> old(closed) || buf == ""
      ensures closed ==> resolved == old(resolved) + old(finishResolvers) + [waiter]
      ensures !closed ==> isFinishing && resolved == old(resolved) && finishResolvers == old(finishResolvers) + [waiter]
    {
      if closed || buf == "" {
        ResolveFinish();
        TellAtOnce(waiter);
      } else {
        isFinishing := true;
        assert rafId.Some?; // so there is nothing to schedule
        Wait(waiter);
      }
    }

    method TellAtOnce(waiter: int)
      requires Accounted()
      modifies this`resolved, this`waiters
      ensures Accounted() && resolved == old(resolved) + [waiter] && waiters == old(waiters) + multiset{waiter}
    {
      resolved, waiters := resolved + [waiter], waiters + multiset{waiter};
    }

    method Wait(waiter: int)
      requires Accounted()
      modifies this`finishResolvers, this`waiters
      ensures Accounted() && finishResolvers == old(finishResolvers) + [waiter]
      ensures waiters == old(waiters) + multiset{waiter}
    {
      finishResolvers, waiters := finishResolvers + [waiter], waiters + multiset{waiter};
    }

    /** Shows the whole buffer at once and ends. */
    method FlushNow()
      requires Valid()
      modifies this, target
      ensures Valid() && closed && waiters == old(waiters) && pushed == old(pushed)
      ensures target.content == initial + pushed && multiset(resolved) == waiters
    {
      if buf != "" {
        target.content := target.content + buf;
        buf := "";
      }
      ResolveFinish();
    }
  }

  /**
    * Frame after frame, whatever the random choices, a finishing writer comes to its end within
    * 3 * |buffer| + pause frames: everything pushed is shown and every waiter is told exactly once.
    */
  method Drain(w: SmoothStreamWriter, coins: nat -> bool) returns (frames: nat)
    requires w.Valid() && w.isFinishing
    modifies w, w.target
    ensures w.Valid() && w.closed && w.pushed == old(w.pushed) && w.waiters == old(w.waiters)
    ensures w.target.content == w.initial + w.pushed && multiset(w.resolved) == w.waiters
    ensures frames <= old(w.Remaining())
  {
    frames := 0;
    while w.rafId.Some?
      invariant w.Valid() && w.isFinishing && w.pushed == old(w.pushed) && w.waiters == old(w.waiters)
      invariant frames + w.Remaining() <= old(w.Remaining())
      decreases w.Remaining()
    {
      w.Tick(coins(frames));
      frames := frames + 1;
    }
    assert w.closed;
  }
}
