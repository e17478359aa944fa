/** The collision swap: two colliding sprites trade the motion blocks of the
    scripts they held when the animation started. */
module Collision {
  import opened Script
  import opened Sprites

  /** `getMotionBlocks`: the top-level blocks labelled `Motion`, in order. A
      `repeat` block is judged by its own label and kept whole. */
  function MotionBlocks(s: seq<Block>): (r: seq<Block>)
    ensures forall i :: 0 <= i < |r| ==> r[i].category == Motion
    ensures multiset(r) <= multiset(s)
  {
    if |s| == 0 then []
    else
      assert s == [s[0]] + s[1..];
      (if s[0].category == Motion then [s[0]] else []) + MotionBlocks(s[1..])
  }

  /** `getNonMotionBlocks`: the top-level blocks with any other label, in order. */
  function NonMotionBlocks(s: seq<Block>): (r: seq<Block>)
    ensures forall i :: 0 <= i < |r| ==> r[i].category != Motion
    ensures multiset(r) <= multiset(s)
  {
    if |s| == 0 then []
    else
      assert s == [s[0]] + s[1..];
      (if s[0].category != Motion then [s[0]] else []) + NonMotionBlocks(s[1..])
  }

  /** Together the two parts hold exactly the original blocks, none lost and
      none duplicated. */
  lemma {:induction false} PartitionComplete(s: seq<Block>)
    ensures |MotionBlocks(s)| + |NonMotionBlocks(s)| == |s|
    ensures multiset(MotionBlocks(s)) + multiset(NonMotionBlocks(s)) == multiset(s)
    decreases |s|
  {
    if |s| > 0 {
      PartitionComplete(s[1..]);
      assert s == [s[0]] + s[1..];
    }
  }

  /** Every block lands in the part its own label selects: a block is in the
      motion part exactly when it is in the script and labelled `Motion`. */
  lemma PartitionMembers(s: seq<Block>, b: Block)
    ensures b in MotionBlocks(s) <==> b in s && b.category == Motion
    ensures b in NonMotionBlocks(s) <==> b in s && b.category != Motion
  {
    PartitionComplete(s);
    assert b in s <==> b in multiset(s);
    assert b in MotionBlocks(s) <==> b in multiset(MotionBlocks(s));
    assert b in NonMotionBlocks(s) <==> b in multiset(NonMotionBlocks(s));
  }

  /** Both filters distribute over concatenation: they keep relative order. */
  lemma PartitionAppend(a: seq<Block>, b: seq<Block>)
    ensures MotionBlocks(a + b) == MotionBlocks(a) + MotionBlocks(b)
    ensures NonMotionBlocks(a + b) == NonMotionBlocks(a) + NonMotionBlocks(b)
  {
    MotionAppend(a, b);
    NonMotionAppend(a, b);
  }

  lemma {:induction false} MotionAppend(a: seq<Block>, b: seq<Block>)
    ensures MotionBlocks(a + b) == MotionBlocks(a) + MotionBlocks(b)
    decreases |a|
  {
    if |a| > 0 {
      assert (a + b)[0] == a[0];
      assert (a + b)[1..] == a[1..] + b;
      MotionAppend(a[1..], b);
    } else {
      assert a + b == b;
    }
  }

  lemma {:induction false} NonMotionAppend(a: seq<Block>, b: seq<Block>)
    ensures NonMotionBlocks(a + b) == NonMotionBlocks(a) + NonMotionBlocks(b)
    decreases |a|
  {
    if |a| > 0 {
      assert (a + b)[0] == a[0];
      assert (a + b)[1..] == a[1..] + b;
      NonMotionAppend(a[1..], b);
    } else {
      assert a + b == b;
    }
  }

  /** The script a sprite gets in a swap: the other sprite's motion blocks,
      then its own non-motion blocks. */
  function Recombine(own: seq<Block>, other: seq<Block>): (r: seq<Block>)
    ensures |r| == |MotionBlocks(other)| + |NonMotionBlocks(own)|
  {
    MotionBlocks(other) + NonMotionBlocks(own)
  }

  /** A recombined script splits back into exactly the two halves it was made
      from, so a swapped script carries no trace of the sprite's own motion. */
  lemma RecombineSplits(own: seq<Block>, other: seq<Block>)
    ensures MotionBlocks(Recombine(own, other)) == MotionBlocks(other)
    ensures NonMotionBlocks(Recombine(own, other)) == NonMotionBlocks(own)
  {
    PartitionAppend(MotionBlocks(other), NonMotionBlocks(own));
    FilterIdempotent(other);
    FilterIdempotent(own);
  }

  lemma {:induction false} FilterIdempotent(s: seq<Block>)
    ensures MotionBlocks(MotionBlocks(s)) == MotionBlocks(s)
    ensures NonMotionBlocks(MotionBlocks(s)) == []
    ensures NonMotionBlocks(NonMotionBlocks(s)) == NonMotionBlocks(s)
    ensures MotionBlocks(NonMotionBlocks(s)) == []
    decreases |s|
  {
    if |s| > 0 {
      FilterIdempotent(s[1..]);
      var head := if s[0].category == Motion then [s[0]] else [];
      PartitionAppend(head, MotionBlocks(s[1..]));
      var tail := if s[0].category != Motion then [s[0]] else [];
      PartitionAppend(tail, NonMotionBlocks(s[1..]));
    }
  }

  /** `originalScriptsRef.current[id] || []`: a sprite missing from the start
      snapshot counts as having had an empty script. */
  function Original(originals: map<string, seq<Block>>, id: string): (r: seq<Block>)
    ensures id !in originals ==> r == []
    ensures id in originals ==> r == originals[id]
  {
    if id in originals then originals[id] else []
  }

  /** `handleCollision(id1, id2)` as a function of the sprite list. Nothing
      changes unless the animation is playing and both ids are on the list;
      otherwise every sprite carrying `id1` becomes the first such sprite with
      the recombined script, likewise for `id2`, and the rest stay put. */
  function Collide(playing: bool, sprites: seq<Sprite>, originals: map<string, seq<Block>>,
                   id1: string, id2: string): (r: seq<Sprite>)
    ensures |r| == |sprites|
    ensures forall k :: 0 <= k < |r| ==> r[k].id == sprites[k].id
    ensures Ids(r) == Ids(sprites)
    ensures !playing || id1 !in Ids(sprites) || id2 !in Ids(sprites) ==> r == sprites
  {
    if !playing then sprites
    else match (Find(sprites, id1), Find(sprites, id2))
      case (Some(sprite1), Some(sprite2)) =>
        var original1 := Original(originals, id1);
        var original2 := Original(originals, id2);
        var updated1 := sprite1.(scripts := Recombine(original1, original2));
        var updated2 := sprite2.(scripts := Recombine(original2, original1));
        ReplaceById(sprites, id1, updated1, id2, updated2)
      case _ => sprites
  }

  /** `prev.map(s => s.id === id1 ? updated1 : s.id === id2 ? updated2 : s)`. */
  function ReplaceById(sprites: seq<Sprite>, id1: string, updated1: Sprite, id2: string, updated2: Sprite): (r: seq<Sprite>)
    requires updated1.id == id1 && updated2.id == id2
    ensures |r| == |sprites|
    ensures forall k :: 0 <= k < |r| ==> r[k].id == sprites[k].id
    ensures Ids(r) == Ids(sprites)
  {
    var r := seq(|sprites|, k requires 0 <= k < |sprites| =>
      if sprites[k].id == id1 then updated1 else if sprites[k].id == id2 then updated2 else sprites[k]);
    IdsPointwise(r, sprites);
    r
  }

  /** With unique ids, the colliding sprites get the recombined scripts and
      keep everything else; every other sprite is left exactly as it was. A
      sprite colliding with itself gets its own motion blocks moved to the
      front of its script. */
  lemma CollideSwaps(sprites: seq<Sprite>, originals: map<string, seq<Block>>, id1: string, id2: string)
    requires UniqueIds(sprites)
    requires id1 in Ids(sprites) && id2 in Ids(sprites)
    ensures forall k :: 0 <= k < |sprites| ==>
      Collide(true, sprites, originals, id1, id2)[k] ==
        if sprites[k].id == id1 then
          sprites[k].(scripts := MotionBlocks(Original(originals, id2)) + NonMotionBlocks(Original(originals, id1)))
        else if sprites[k].id == id2 then
          sprites[k].(scripts := MotionBlocks(Original(originals, id1)) + NonMotionBlocks(Original(originals, id2)))
        else sprites[k]
  {
    var sprite1 := Find(sprites, id1).value;
    var sprite2 := Find(sprites, id2).value;
    var k1 :| 0 <= k1 < |sprites| && sprites[k1] == sprite1 && First(sprites, id1, k1);
    var k2 :| 0 <= k2 < |sprites| && sprites[k2] == sprite2 && First(sprites, id2, k2);
    assert forall k :: 0 <= k < |sprites| && sprites[k].id == id1 ==> k == k1;
    assert forall k :: 0 <= k < |sprites| && sprites[k].id == id2 ==> k == k2;
  }

  /** After a swap, looking an id up finds the replacement sprite. */
  lemma FindAfterReplace(sprites: seq<Sprite>, id1: string, updated1: Sprite, id2: string, updated2: Sprite)
    requires updated1.id == id1 && updated2.id == id2
    requires id1 in Ids(sprites) && id2 in Ids(sprites)
    ensures Find(ReplaceById(sprites, id1, updated1, id2, updated2), id1) == Some(updated1)
    ensures id1 != id2 ==> Find(ReplaceById(sprites, id1, updated1, id2, updated2), id2) == Some(updated2)
  {
    var once := ReplaceById(sprites, id1, updated1, id2, updated2);
    var k1 :| 0 <= k1 < |once| && once[k1] == Find(once, id1).value && First(once, id1, k1);
    assert First(once, id1, k1);
    assert sprites[k1].id == id1;
    var k2 :| 0 <= k2 < |once| && once[k2] == Find(once, id2).value && First(once, id2, k2);
    assert First(once, id2, k2);
    assert sprites[k2].id == id2;
  }

  /** Replacing with the same sprites a second time changes nothing. */
  lemma ReplaceByIdTwice(sprites: seq<Sprite>, id1: string, updated1: Sprite, id2: string, updated2: Sprite)
    requires updated1.id == id1 && updated2.id == id2
    ensures var once := ReplaceById(sprites, id1, updated1, id2, updated2);
      ReplaceById(once, id1, updated1, id2, updated2) == once
  {
  }

  /** A second report of the same collision changes nothing more: the result
      depends only on the frozen start snapshot. */
  lemma CollideIdempotent(playing: bool, sprites: seq<Sprite>, originals: map<string, seq<Block>>,
                          id1: string, id2: string)
    ensures var once := Collide(playing, sprites, originals, id1, id2);
      Collide(playing, once, originals, id1, id2) == once
  {
    if playing && id1 in Ids(sprites) && id2 in Ids(sprites) {
      var original1 := Original(originals, id1);
      var original2 := Original(originals, id2);
      var updated1 := Find(sprites, id1).value.(scripts := Recombine(original1, original2));
      var updated2 := Find(sprites, id2).value.(scripts := Recombine(original2, original1));
      var once := ReplaceById(sprites, id1, updated1, id2, updated2);
      assert Collide(playing, sprites, originals, id1, id2) == once;
      FindAfterReplace(sprites, id1, updated1, id2, updated2);
      assert Find(once, id1).value.(scripts := Recombine(original1, original2)) == updated1;
      assert Find(once, id2).value.(scripts := Recombine(original2, original1)) == updated2;
      assert Collide(playing, once, originals, id1, id2) == ReplaceById(once, id1, updated1, id2, updated2);
      ReplaceByIdTwice(sprites, id1, updated1, id2, updated2);
    }
  }

  /** For two distinct ids, the order in which the collision is reported does
      not matter. */
  lemma CollideSymmetric(playing: bool, sprites: seq<Sprite>, originals: map<string, seq<Block>>,
                         id1: string, id2: string)
    requires id1 != id2
    ensures Collide(playing, sprites, originals, id1, id2) == Collide(playing, sprites, originals, id2, id1)
  {
    if playing && id1 in Ids(sprites) && id2 in Ids(sprites) {
      var a := Collide(playing, sprites, originals, id1, id2);
      var b := Collide(playing, sprites, originals, id2, id1);
      forall k | 0 <= k < |sprites|
        ensures a[k] == b[k]
      {
      }
    }
  }
}
