/** The block interpreter: how one sprite's pose evolves when its script runs
    once (one animation tick). */
module Interpreter {
  import opened Script

  /** The unit direction vector of a heading in degrees, `(cos θ, sin θ)` with
      θ = (heading − 90)·π/180. Trigonometry is outside the model, so every
      caller supplies it. */
  type Compass = int -> (real, real)

  /** A sprite's pose and speech/thought bubble. */
  datatype Pose = Pose(
    x: real,
    y: real,
    direction: int,
    sayText: Option<string>,
    thinkText: Option<string>,
    textTimer: Option<int>,
    isThinking: bool)

  /** The pose of a new sprite and of every sprite after a reset. */
  const Rest: Pose := Pose(0.0, 0.0, 90, None, None, None, false)

  /** JavaScript's `a % 360`: division truncates toward zero, so the
      remainder takes the sign of the dividend. */
  function TruncRem360(a: int): (r: int)
    ensures -360 < r < 360
    ensures a > 0 ==> r >= 0
    ensures a < 0 ==> r <= 0
    ensures (a - r) % 360 == 0
  {
    if a >= 0 then a % 360 else -((-a) % 360)
  }

  /** The heading after `turn(degrees)`: truncated remainder by 360, then a
      negative result is folded up by 360. */
  function TurnHeading(direction: int, degrees: int): (r: int)
    ensures 0 <= r < 360
    ensures r == (direction + degrees) % 360
  {
    var d := TruncRem360(direction + degrees);
    if d < 0 then d + 360 else d
  }

  /** The effect of one block. Only `turn` writes the heading, and it always
      lands in [0, 360), so a heading in range stays in range. */
  function Step(p: Pose, b: Block, compass: Compass): (r: Pose)
    ensures 0 <= p.direction < 360 ==> 0 <= r.direction < 360
    decreases b, 0
  {
    match b.op
    case Move(steps) =>
      var (dx, dy) := compass(p.direction);
      p.(x := p.x + steps as real * dx, y := p.y + steps as real * dy)
    case Turn(degrees) =>
      p.(direction := TurnHeading(p.direction, degrees))
    case Goto(x, y) =>
      p.(x := x, y := y)
    case Say(text, seconds) =>
      p.(sayText := Some(text), thinkText := None, textTimer := Some(seconds), isThinking := false)
    case Think(text, seconds) =>
      p.(thinkText := Some(text), sayText := None, textTimer := Some(seconds), isThinking := true)
    case Repeat(times) =>
      if |b.children| > 0 then Loop(p, b.children, times, compass) else p
    case Unknown(_) =>
      p
  }

  /** A block sequence, strictly left to right. */
  function Run(p: Pose, bs: seq<Block>, compass: Compass): (r: Pose)
    ensures 0 <= p.direction < 360 ==> 0 <= r.direction < 360
    decreases bs, 0
  {
    if |bs| == 0 then p else Run(Step(p, bs[0], compass), bs[1..], compass)
  }

  /** `n` passes of the `repeat` counting loop over `children`, each pass
      starting from the pose the previous one left. */
  function Loop(p: Pose, children: seq<Block>, n: int, compass: Compass): (r: Pose)
    ensures 0 <= p.direction < 360 ==> 0 <= r.direction < 360
    decreases children, n
  {
    if n <= 0 then p else Loop(Run(p, children, compass), children, n - 1, compass)
  }

  /** `n` copies of `s` laid end to end. */
  function Copies(s: seq<Block>, n: int): (r: seq<Block>)
    ensures n <= 0 ==> r == []
    ensures n > 0 ==> |r| == n * |s|
  {
    if n <= 0 then [] else s + Copies(s, n - 1)
  }

  // ---------------------------------------------------------------------------
  // Sequencing

  /** Running `a ++ b` is running `a`, then `b` from where `a` left off. */
  lemma {:induction false} RunAppend(p: Pose, a: seq<Block>, b: seq<Block>, compass: Compass)
    ensures Run(p, a + b, compass) == Run(Run(p, a, compass), b, compass)
    decreases |a|
  {
    if |a| > 0 {
      assert (a + b)[0] == a[0];
      assert (a + b)[1..] == a[1..] + b;
      RunAppend(Step(p, a[0], compass), a[1..], b, compass);
    } else {
      assert a + b == b;
    }
  }

  /** Appending one block to a script adds one step at the end. */
  lemma RunSnoc(p: Pose, a: seq<Block>, b: Block, compass: Compass)
    ensures Run(p, a + [b], compass) == Step(Run(p, a, compass), b, compass)
  {
    RunAppend(p, a, [b], compass);
  }

  // ---------------------------------------------------------------------------
  // repeat

  /** `n + 1` passes are `n` passes followed by one more. */
  lemma {:induction false} LoopOneMore(p: Pose, children: seq<Block>, n: nat, compass: Compass)
    ensures Loop(p, children, n + 1, compass) == Run(Loop(p, children, n, compass), children, compass)
    decreases n
  {
    if n > 0 {
      LoopOneMore(Run(p, children, compass), children, n - 1, compass);
    }
  }

  /** `n` passes over the children are one run of the children copied `n` times. */
  lemma {:induction false} LoopIsCopies(p: Pose, children: seq<Block>, n: int, compass: Compass)
    ensures Loop(p, children, n, compass) == Run(p, Copies(children, n), compass)
    decreases n
  {
    if n > 0 {
      LoopIsCopies(Run(p, children, compass), children, n - 1, compass);
      RunAppend(p, children, Copies(children, n - 1), compass);
    }
  }

  /** `repeat` with a non-positive count or no children leaves the pose
      alone; otherwise it runs its children `times` times in a row. */
  lemma RepeatUnrolls(p: Pose, b: Block, compass: Compass)
    requires b.op.Repeat?
    ensures b.op.times <= 0 || |b.children| == 0 ==> Step(p, b, compass) == p
    ensures Step(p, b, compass) == Run(p, Copies(b.children, b.op.times), compass)
  {
    LoopIsCopies(p, b.children, b.op.times, compass);
  }

  // ---------------------------------------------------------------------------
  // Single blocks

  /** What each kind of block changes, and that it changes nothing else. */
  lemma StepEffects(p: Pose, b: Block, compass: Compass)
    ensures b.op.Move? && b.op.steps == 0 ==> Step(p, b, compass) == p
    ensures b.op.Move? ==>
      (Step(p, b, compass).direction == p.direction && Bubble(Step(p, b, compass)) == Bubble(p))
    ensures b.op.Turn? ==> Step(p, b, compass) == p.(direction := (p.direction + b.op.degrees) % 360)
    ensures b.op.Goto? ==> Step(p, b, compass) == p.(x := b.op.x, y := b.op.y)
    ensures b.op.Say? ==>
      Step(p, b, compass) == p.(sayText := Some(b.op.text), thinkText := None,
                                textTimer := Some(b.op.seconds), isThinking := false)
    ensures b.op.Think? ==>
      Step(p, b, compass) == p.(thinkText := Some(b.op.text), sayText := None,
                                textTimer := Some(b.op.seconds), isThinking := true)
    ensures b.op.Unknown? ==> Step(p, b, compass) == p
  {
  }

  /** From the rest pose, `turn(-450)` heads to 0: 90 − 450 = −360 is a
      multiple of 360. */
  lemma TurnBackFromRest(compass: Compass)
    ensures Step(Rest, Block(Turn(-450), Motion, []), compass).direction == 0
  {
  }

  // ---------------------------------------------------------------------------
  // The pose invariant

  /** A pose the page can draw: heading in [0, 360), at most one bubble,
      `isThinking` exactly when the thought bubble is up, and a timer exactly
      when some bubble is up. */
  predicate Consistent(p: Pose) {
    && 0 <= p.direction < 360
    && !(p.sayText.Some? && p.thinkText.Some?)
    && (p.isThinking <==> p.thinkText.Some?)
    && (p.textTimer.Some? <==> (p.sayText.Some? || p.thinkText.Some?))
  }

  lemma RestIsConsistent()
    ensures Consistent(Rest)
  {
  }

  lemma {:induction false} StepKeepsConsistent(p: Pose, b: Block, compass: Compass)
    requires Consistent(p)
    ensures Consistent(Step(p, b, compass))
    decreases b, 0
  {
    if b.op.Repeat? && |b.children| > 0 {
      LoopKeepsConsistent(p, b.children, b.op.times, compass);
    }
  }

  /** Every script keeps a drawable pose drawable. */
  lemma {:induction false} RunKeepsConsistent(p: Pose, bs: seq<Block>, compass: Compass)
    requires Consistent(p)
    ensures Consistent(Run(p, bs, compass))
    decreases bs, 0
  {
    if |bs| > 0 {
      StepKeepsConsistent(p, bs[0], compass);
      RunKeepsConsistent(Step(p, bs[0], compass), bs[1..], compass);
    }
  }

  lemma {:induction false} LoopKeepsConsistent(p: Pose, children: seq<Block>, n: int, compass: Compass)
    requires Consistent(p)
    ensures Consistent(Loop(p, children, n, compass))
    decreases children, n
  {
    if n > 0 {
      RunKeepsConsistent(p, children, compass);
      LoopKeepsConsistent(Run(p, children, compass), children, n - 1, compass);
    }
  }

  // ---------------------------------------------------------------------------
  // Scripts without looks blocks

  /** No `say` or `think` anywhere in the block, its children included. */
  predicate SilentBlock(b: Block)
    decreases b, 1
  {
    !b.op.Say? && !b.op.Think? && Silent(b.children)
  }

  predicate Silent(bs: seq<Block>)
    decreases bs, 0
  {
    |bs| == 0 || (SilentBlock(bs[0]) && Silent(bs[1..]))
  }

  /** The bubble fields of a pose. */
  function Bubble(p: Pose): (Option<string>, Option<string>, Option<int>, bool) {
    (p.sayText, p.thinkText, p.textTimer, p.isThinking)
  }

  lemma {:induction false} SilentStepKeepsBubble(p: Pose, b: Block, compass: Compass)
    requires SilentBlock(b)
    ensures Bubble(Step(p, b, compass)) == Bubble(p)
    decreases b, 0
  {
    if b.op.Repeat? && |b.children| > 0 {
      SilentLoopKeepsBubble(p, b.children, b.op.times, compass);
    }
  }

  /** A script with no looks block, however deeply nested, leaves the bubble
      exactly as it was. */
  lemma {:induction false} SilentRunKeepsBubble(p: Pose, bs: seq<Block>, compass: Compass)
    requires Silent(bs)
    ensures Bubble(Run(p, bs, compass)) == Bubble(p)
    decreases bs, 0
  {
    if |bs| > 0 {
      SilentStepKeepsBubble(p, bs[0], compass);
      SilentRunKeepsBubble(Step(p, bs[0], compass), bs[1..], compass);
    }
  }

  lemma {:induction false} SilentLoopKeepsBubble(p: Pose, children: seq<Block>, n: int, compass: Compass)
    requires Silent(children)
    ensures Bubble(Loop(p, children, n, compass)) == Bubble(p)
    decreases children, n
  {
    if n > 0 {
      SilentRunKeepsBubble(p, children, compass);
      SilentLoopKeepsBubble(Run(p, children, compass), children, n - 1, compass);
    }
  }

  // ---------------------------------------------------------------------------
  // The mutable pose record the page's interpreter updates field by field

  /** The local `state` copy that `processBlock` mutates in place. */
  class PoseCell {
    var x: real
    var y: real
    var direction: int
    var sayText: Option<string>
    var thinkText: Option<string>
    var textTimer: Option<int>
    var isThinking: bool

    function Value(): Pose
      reads this
    {
      Pose(x, y, direction, sayText, thinkText, textTimer, isThinking)
    }

    /** A copy of a pose (the object spread `{ ...pose }`). */
    constructor (p: Pose)
      ensures Value() == p
    {
      x, y, direction := p.x, p.y, p.direction;
      sayText, thinkText, textTimer, isThinking := p.sayText, p.thinkText, p.textTimer, p.isThinking;
    }

    method ProcessBlock(b: Block, compass: Compass)
      modifies this
      ensures Value() == Step(old(Value()), b, compass)
      decreases b, 0
    {
      match b.op {
        case Move(steps) =>
          var (dx, dy) := compass(direction);
          x := x + steps as real * dx;
          y := y + steps as real * dy;
        case Turn(degrees) =>
          direction := TruncRem360(direction + degrees);
          if direction < 0 {
            direction := direction + 360;
          }
        case Goto(gx, gy) =>
          x := gx;
          y := gy;
        case Say(text, seconds) =>
          sayText := Some(text);
          thinkText := None;
          textTimer := Some(seconds);
          isThinking := false;
        case Think(text, seconds) =>
          thinkText := Some(text);
          sayText := None;
          textTimer := Some(seconds);
          isThinking := true;
        case Repeat(times) =>
          if |b.children| > 0 {
            ghost var start := Value();
            var i := 0;
            while i < times
              invariant 0 <= i <= if times > 0 then times else 0
              invariant Value() == Loop(start, b.children, i, compass)
            {
              LoopOneMore(start, b.children, i, compass);
              ProcessScript(b.children, compass);
              i := i + 1;
            }
          }
        case Unknown(_) =>
      }
    }

    method ProcessScript(blocks: seq<Block>, compass: Compass)
      modifies this
      ensures Value() == Run(old(Value()), blocks, compass)
      decreases blocks, 0
    {
      ghost var start := Value();
      for i := 0 to |blocks|
        invariant Value() == Run(start, blocks[..i], compass)
      {
        RunSnoc(start, blocks[..i], blocks[i], compass);
        assert blocks[..i + 1] == blocks[..i] + [blocks[i]];
        ProcessBlock(blocks[i], compass);
      }
      assert blocks[..|blocks|] == blocks;
    }
  }
}
