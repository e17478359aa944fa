/** Sprites and the page's sprite-list handlers (add, update, delete, find). */
module Sprites {
  import opened Script

  /** A sprite: its id, the display attributes the sprite editor owns, and its
      current script. */
  datatype Sprite = Sprite(
    id: string,
    name: string,
    color: string,
    width: int,
    height: int,
    shape: string,
    scripts: seq<Block>)

  /** The ids present in a sprite list. */
  function Ids(sprites: seq<Sprite>): set<string> {
    set s | s in sprites :: s.id
  }

  /** No two sprites share an id. */
  predicate UniqueIds(sprites: seq<Sprite>) {
    forall i, j :: 0 <= i < j < |sprites| ==> sprites[i].id != sprites[j].id
  }

  lemma IdsAppend(a: seq<Sprite>, b: seq<Sprite>)
    ensures Ids(a + b) == Ids(a) + Ids(b)
  {
    assert forall s :: s in a + b <==> s in a || s in b;
  }

  lemma IdsCons(sprites: seq<Sprite>)
    requires |sprites| > 0
    ensures Ids(sprites) == {sprites[0].id} + Ids(sprites[1..])
  {
    assert sprites == [sprites[0]] + sprites[1..];
    IdsAppend([sprites[0]], sprites[1..]);
  }

  lemma IdsPrefix(sprites: seq<Sprite>, i: nat)
    requires i < |sprites|
    ensures Ids(sprites[..i + 1]) == Ids(sprites[..i]) + {sprites[i].id}
  {
    assert sprites[..i + 1] == sprites[..i] + [sprites[i]];
    IdsAppend(sprites[..i], [sprites[i]]);
  }

  lemma IdsTake(sprites: seq<Sprite>, i: nat)
    requires i <= |sprites|
    ensures Ids(sprites[..i]) <= Ids(sprites)
  {
    assert forall s :: s in sprites[..i] ==> s in sprites;
  }

  /** `sprites.find(s => s.id === id)`: the first sprite carrying `id`. */
  function Find(sprites: seq<Sprite>, id: string): (r: Option<Sprite>)
    ensures r.None? <==> id !in Ids(sprites)
    ensures r.Some? ==> exists k :: 0 <= k < |sprites| && sprites[k] == r.value && First(sprites, id, k)
  {
    if |sprites| == 0 then None
    else if sprites[0].id == id then
      assert First(sprites, id, 0);
      Some(sprites[0])
    else
      IdsCons(sprites);
      var r := Find(sprites[1..], id);
      if r.Some? then
        var k :| 0 <= k < |sprites| - 1 && sprites[1..][k] == r.value && First(sprites[1..], id, k);
        assert First(sprites, id, k + 1);
        r
      else r
  }

  /** Index `k` is the first position of `id` in the list. */
  predicate First(sprites: seq<Sprite>, id: string, k: int) {
    && 0 <= k < |sprites|
    && sprites[k].id == id
    && forall j :: 0 <= j < k ==> sprites[j].id != id
  }

  /** Two lists carrying the same ids position by position carry the same ids. */
  lemma IdsPointwise(a: seq<Sprite>, b: seq<Sprite>)
    requires |a| == |b|
    requires forall k :: 0 <= k < |a| ==> a[k].id == b[k].id
    ensures Ids(a) == Ids(b)
  {
    forall id | id in Ids(a)
      ensures id in Ids(b)
    {
      var s :| s in a && s.id == id;
      assert b[IndexOf(a, s)] in b;
    }
    forall id | id in Ids(b)
      ensures id in Ids(a)
    {
      var s :| s in b && s.id == id;
      assert a[IndexOf(b, s)] in a;
    }
  }

  /** `handleAddSprite`: append a sprite at the end of the list. */
  function AddSprite(sprites: seq<Sprite>, sprite: Sprite): (r: seq<Sprite>)
    ensures Ids(r) == Ids(sprites) + {sprite.id}
    ensures |r| == |sprites| + 1 && r[..|sprites|] == sprites && r[|sprites|] == sprite
  {
    IdsAppend(sprites, [sprite]);
    sprites + [sprite]
  }

  /** `handleUpdateSprite`: every sprite carrying the updated sprite's id is
      replaced by it; the others stay where they are. */
  function UpdateSprite(sprites: seq<Sprite>, updated: Sprite): (r: seq<Sprite>)
    ensures |r| == |sprites|
    ensures forall k :: 0 <= k < |r| ==> r[k].id == sprites[k].id
    ensures Ids(r) == Ids(sprites)
    ensures updated.id in Ids(sprites) ==> updated in r
    ensures updated.id !in Ids(sprites) ==> r == sprites
    ensures forall k :: 0 <= k < |r| && sprites[k].id == updated.id ==> r[k] == updated
    ensures forall k :: 0 <= k < |r| && sprites[k].id != updated.id ==> r[k] == sprites[k]
  {
    var r := seq(|sprites|, k requires 0 <= k < |sprites| =>
      if sprites[k].id == updated.id then updated else sprites[k]);
    IdsPointwise(r, sprites);
    if updated.id in Ids(sprites) then
      var s :| s in sprites && s.id == updated.id;
      assert r[IndexOf(sprites, s)] == updated;
      r
    else
      r
  }

  /** Some position holding `s`. */
  function IndexOf(sprites: seq<Sprite>, s: Sprite): (k: nat)
    requires s in sprites
    ensures k < |sprites| && sprites[k] == s
  {
    if sprites[0] == s then 0 else 1 + IndexOf(sprites[1..], s)
  }

  /** `handleDeleteSprite`: drop every sprite carrying `id`, keeping the
      order of the rest. */
  function DeleteSprite(sprites: seq<Sprite>, id: string): (r: seq<Sprite>)
    ensures forall s :: s in r <==> s in sprites && s.id != id
    ensures Ids(r) == Ids(sprites) - {id}
    ensures |r| <= |sprites|
  {
    if |sprites| == 0 then []
    else
      IdsCons(sprites);
      var rest := DeleteSprite(sprites[1..], id);
      if sprites[0].id == id then rest
      else
        IdsCons([sprites[0]] + rest);
        assert ([sprites[0]] + rest)[1..] == rest;
        [sprites[0]] + rest
  }

  /** Deleting distributes over concatenation, so the survivors keep their
      relative order. */
  lemma {:induction false} DeleteAppend(a: seq<Sprite>, b: seq<Sprite>, id: string)
    ensures DeleteSprite(a + b, id) == DeleteSprite(a, id) + DeleteSprite(b, id)
    decreases |a|
  {
    if |a| > 0 {
      assert (a + b)[0] == a[0];
      assert (a + b)[1..] == a[1..] + b;
      DeleteAppend(a[1..], b, id);
    } else {
      assert a + b == b;
    }
  }

  /** Deleting an id nobody carries changes nothing. */
  lemma {:induction false} DeleteAbsent(sprites: seq<Sprite>, id: string)
    requires id !in Ids(sprites)
    ensures DeleteSprite(sprites, id) == sprites
    decreases |sprites|
  {
    if |sprites| > 0 {
      IdsCons(sprites);
      DeleteAbsent(sprites[1..], id);
      assert sprites == [sprites[0]] + sprites[1..];
    }
  }

  /** Adding a sprite with a fresh id and then deleting it gives back the list. */
  lemma DeleteUndoesAdd(sprites: seq<Sprite>, sprite: Sprite)
    requires sprite.id !in Ids(sprites)
    ensures DeleteSprite(AddSprite(sprites, sprite), sprite.id) == sprites
  {
    DeleteAppend(sprites, [sprite], sprite.id);
    DeleteAbsent(sprites, sprite.id);
    assert DeleteSprite([sprite], sprite.id) == [];
  }
}
