/** The page's runtime state: the sprite list, the play flag, the per-sprite
    pose map and the start-of-session script snapshot, with the lifecycle
    commands, the pose-map sync and one animation tick. */
module IndexPage {
  import opened Script
  import opened Interpreter
  import opened Sprites
  import opened Collision

  // ---------------------------------------------------------------------------
  // Specification functions

  /** The pose map after the sync: one entry per sprite id, existing entries
      kept and new ids at rest. */
  function SyncedStates(states: map<string, Pose>, sprites: seq<Sprite>): (r: map<string, Pose>)
    ensures r.Keys == Ids(sprites)
    ensures AllConsistent(states) ==> AllConsistent(r)
  {
    map id | id in Ids(sprites) :: if id in states then states[id] else Rest
  }

  /** The pose map after a reset: every sprite at rest. */
  function RestStates(sprites: seq<Sprite>): (r: map<string, Pose>)
    ensures r.Keys == Ids(sprites)
    ensures forall id :: id in r ==> r[id] == Rest
    ensures AllConsistent(r)
  {
    map id | id in Ids(sprites) :: Rest
  }

  /** The start-of-session snapshot: each id mapped to the script of the last
      sprite on the list carrying it. */
  function Snapshot(sprites: seq<Sprite>): (r: map<string, seq<Block>>)
    ensures r.Keys == Ids(sprites)
    decreases |sprites|
  {
    if |sprites| == 0 then map[]
    else
      var n := |sprites| - 1;
      IdsPrefix(sprites, n);
      assert sprites[..n + 1] == sprites;
      Snapshot(sprites[..n])[sprites[n].id := sprites[n].scripts]
  }

  /** The pose map after one tick: each sprite, in list order, runs its current
      script from its pose in `base` and the result is stored under its id. */
  function TickStates(base: map<string, Pose>, sprites: seq<Sprite>, compass: Compass): (r: map<string, Pose>)
    requires Ids(sprites) <= base.Keys
    ensures r.Keys == base.Keys
    decreases |sprites|
  {
    if |sprites| == 0 then base
    else
      var n := |sprites| - 1;
      IdsTake(sprites, n);
      TickStates(base, sprites[..n], compass)[sprites[n].id := Run(base[sprites[n].id], sprites[n].scripts, compass)]
  }

  /** Every pose in the map is drawable. */
  predicate AllConsistent(states: map<string, Pose>) {
    forall id :: id in states ==> Consistent(states[id])
  }

  // ---------------------------------------------------------------------------
  // Lemmas

  /** With unique ids the snapshot holds every sprite's script under its id. */
  lemma {:induction false} SnapshotHoldsScripts(sprites: seq<Sprite>)
    requires UniqueIds(sprites)
    ensures forall k :: 0 <= k < |sprites| ==> Snapshot(sprites)[sprites[k].id] == sprites[k].scripts
    decreases |sprites|
  {
    if |sprites| > 0 {
      var n := |sprites| - 1;
      var prefix := sprites[..n];
      assert UniqueIds(prefix);
      SnapshotHoldsScripts(prefix);
      forall k | 0 <= k < n
        ensures Snapshot(sprites)[sprites[k].id] == sprites[k].scripts
      {
        assert prefix[k] == sprites[k];
        assert sprites[k].id != sprites[n].id;
      }
    }
  }

  /** With unique ids one tick runs every sprite's script exactly once from its
      own previous pose, and leaves poses of ids not on the list alone. */
  lemma {:induction false} TickRunsEachSprite(base: map<string, Pose>, sprites: seq<Sprite>, compass: Compass)
    requires Ids(sprites) <= base.Keys
    requires UniqueIds(sprites)
    ensures forall k :: 0 <= k < |sprites| ==>
      TickStates(base, sprites, compass)[sprites[k].id] == Run(base[sprites[k].id], sprites[k].scripts, compass)
    ensures forall id :: id in base && id !in Ids(sprites) ==> TickStates(base, sprites, compass)[id] == base[id]
    decreases |sprites|
  {
    if |sprites| > 0 {
      var n := |sprites| - 1;
      var prefix := sprites[..n];
      IdsTake(sprites, n);
      assert UniqueIds(prefix);
      TickRunsEachSprite(base, prefix, compass);
      IdsPrefix(sprites, n);
      assert sprites[..n + 1] == sprites;
      forall k | 0 <= k < n
        ensures TickStates(base, sprites, compass)[sprites[k].id] == Run(base[sprites[k].id], sprites[k].scripts, compass)
      {
        assert prefix[k] == sprites[k];
        assert sprites[k].id != sprites[n].id;
      }
    }
  }

  /** A tick keeps every pose drawable, whatever the scripts. */
  lemma {:induction false} TickKeepsConsistent(base: map<string, Pose>, sprites: seq<Sprite>, compass: Compass)
    requires Ids(sprites) <= base.Keys
    requires AllConsistent(base)
    ensures AllConsistent(TickStates(base, sprites, compass))
    decreases |sprites|
  {
    if |sprites| > 0 {
      var n := |sprites| - 1;
      IdsTake(sprites, n);
      TickKeepsConsistent(base, sprites[..n], compass);
      RunKeepsConsistent(base[sprites[n].id], sprites[n].scripts, compass);
    }
  }

  /** `n` ticks in a row, each starting from the poses the previous one left. */
  function Ticks(states: map<string, Pose>, sprites: seq<Sprite>, n: nat, compass: Compass): (r: map<string, Pose>)
    requires Ids(sprites) <= states.Keys
    ensures r.Keys == states.Keys
  {
    if n == 0 then states else Ticks(TickStates(states, sprites, compass), sprites, n - 1, compass)
  }

  /** With unique ids, `n` ticks run each sprite's script `n` times over from
      its pose before the first tick. */
  lemma {:induction false} TicksRunScriptRepeatedly(states: map<string, Pose>, sprites: seq<Sprite>, n: nat,
                                                    compass: Compass, k: int)
    requires Ids(sprites) <= states.Keys
    requires UniqueIds(sprites)
    requires 0 <= k < |sprites|
    ensures Ticks(states, sprites, n, compass)[sprites[k].id]
      == Run(states[sprites[k].id], Copies(sprites[k].scripts, n), compass)
    decreases n
  {
    if n > 0 {
      var id := sprites[k].id;
      var next := TickStates(states, sprites, compass);
      TickRunsEachSprite(states, sprites, compass);
      TicksRunScriptRepeatedly(next, sprites, n - 1, compass, k);
      RunAppend(states[id], sprites[k].scripts, Copies(sprites[k].scripts, n - 1), compass);
    }
  }

  /** `n` ticks as the page's timer callback performs them: the callback
      closes over the pose map of the render in which `startAnimation` ran,
      so every tick starts again from `atStart`. */
  function StaleTicks(atStart: map<string, Pose>, sprites: seq<Sprite>, n: nat, compass: Compass): (r: map<string, Pose>)
    requires Ids(sprites) <= atStart.Keys
    ensures r.Keys == atStart.Keys
  {
    if n == 0 then atStart else TickStates(atStart, sprites, compass)
  }

  /** A sprite whose script is `turn 10`, starting at rest, heads 100 after two
      ticks as the page performs them, where two ticks should give 110. */
  lemma StaleTicksFreeze(compass: Compass)
    ensures var turn10 := Sprite("A", "Sprite 1", "#4C97FF", 50, 50, "square", [Block(Turn(10), Motion, [])]);
      var atStart := map["A" := Rest];
      && StaleTicks(atStart, [turn10], 2, compass)["A"].direction == 100
      && Ticks(atStart, [turn10], 2, compass)["A"].direction == 110
  {
    var turn10 := Sprite("A", "Sprite 1", "#4C97FF", 50, 50, "square", [Block(Turn(10), Motion, [])]);
    var atStart := map["A" := Rest];
    assert Ids([turn10]) == {"A"} by {
      assert turn10 in [turn10];
    }
    var once := TickStates(atStart, [turn10], compass);
    assert [turn10][..0] == [];
    assert once["A"] == Run(Rest, turn10.scripts, compass);
    assert once["A"].direction == 100;
    var twice := TickStates(once, [turn10], compass);
    assert twice["A"] == Run(once["A"], turn10.scripts, compass);
    assert twice["A"].direction == 110;
    assert Ticks(once, [turn10], 1, compass) == twice;
  }

  /** The sync leaves exactly the sprite ids as keys, keeps the poses it
      already had and puts new sprites at rest; running it again changes
      nothing. */
  lemma SyncedStatesSpec(states: map<string, Pose>, sprites: seq<Sprite>)
    ensures SyncedStates(states, sprites).Keys == Ids(sprites)
    ensures forall id :: id in Ids(sprites) && id in states ==> SyncedStates(states, sprites)[id] == states[id]
    ensures forall id :: id in Ids(sprites) && id !in states ==> SyncedStates(states, sprites)[id] == Rest
    ensures SyncedStates(SyncedStates(states, sprites), sprites) == SyncedStates(states, sprites)
    ensures AllConsistent(states) ==> AllConsistent(SyncedStates(states, sprites))
  {
  }

  // ---------------------------------------------------------------------------
  // The page

  class Studio {
    /** The trigonometry `move` uses. */
    const compass: Compass
    var sprites: seq<Sprite>
    var selectedSpriteId: Option<string>
    var isPlaying: bool
    var spriteStates: map<string, Pose>
    var originalScripts: map<string, seq<Block>>

    /** The pose map has an entry for exactly the sprites on the list. */
    ghost predicate Valid()
      reads this
    {
      spriteStates.Keys == Ids(sprites)
    }

    constructor (compass: Compass)
      ensures Valid() && this.compass == compass
      ensures sprites == [] && selectedSpriteId == None && !isPlaying
      ensures spriteStates == map[] && originalScripts == map[]
    {
      this.compass := compass;
      sprites := [];
      selectedSpriteId := None;
      isPlaying := false;
      spriteStates := map[];
      originalScripts := map[];
    }

    /** The effect that runs whenever the sprite list changes: give every new
        sprite a rest pose, then drop the poses of sprites no longer listed. */
    method SyncSpriteStates()
      modifies this`spriteStates
      ensures spriteStates == SyncedStates(old(spriteStates), sprites)
      ensures Valid()
    {
      var newSpriteStates := spriteStates;
      for i := 0 to |sprites|
        invariant newSpriteStates.Keys == old(spriteStates).Keys + Ids(sprites[..i])
        invariant forall id :: id in newSpriteStates ==>
          newSpriteStates[id] == if id in old(spriteStates) then old(spriteStates)[id] else Rest
      {
        IdsPrefix(sprites, i);
        if sprites[i].id !in newSpriteStates {
          newSpriteStates := newSpriteStates[sprites[i].id := Rest];
        }
      }
      assert sprites[..|sprites|] == sprites;
      var keys := newSpriteStates.Keys;
      ghost var all := keys;
      while keys != {}
        invariant keys <= all
        invariant newSpriteStates.Keys == keys + (all - keys) * Ids(sprites)
        invariant forall id :: id in newSpriteStates ==>
          newSpriteStates[id] == if id in old(spriteStates) then old(spriteStates)[id] else Rest
        decreases keys
      {
        var id :| id in keys;
        if Find(sprites, id).None? {
          newSpriteStates := newSpriteStates - {id};
        }
        keys := keys - {id};
      }
      assert newSpriteStates.Keys == SyncedStates(old(spriteStates), sprites).Keys;
      assert forall id :: id in newSpriteStates ==> newSpriteStates[id] == SyncedStates(old(spriteStates), sprites)[id];
      assert newSpriteStates == SyncedStates(old(spriteStates), sprites);
      spriteStates := newSpriteStates;
    }

    /** `handleAddSprite`: append the sprite and select it. */
    method HandleAddSprite(sprite: Sprite)
      modifies this`sprites, this`selectedSpriteId, this`spriteStates
      ensures sprites == AddSprite(old(sprites), sprite)
      ensures selectedSpriteId == Some(sprite.id)
      ensures spriteStates == SyncedStates(old(spriteStates), sprites)
      ensures Valid()
    {
      sprites := AddSprite(sprites, sprite);
      selectedSpriteId := Some(sprite.id);
      SyncSpriteStates();
    }

    /** `handleUpdateSprite`: replace the sprite carrying the same id; the
        poses are untouched since no id comes or goes. */
    method HandleUpdateSprite(updatedSprite: Sprite)
      requires Valid()
      modifies this`sprites, this`spriteStates
      ensures sprites == UpdateSprite(old(sprites), updatedSprite)
      ensures spriteStates == old(spriteStates)
      ensures Valid()
    {
      sprites := UpdateSprite(sprites, updatedSprite);
      SyncSpriteStates();
    }

    /** `handleDeleteSprite`: drop the sprite, clear the selection if it was
        the selected one, and drop its pose. */
    method HandleDeleteSprite(id: string)
      modifies this`sprites, this`selectedSpriteId, this`spriteStates
      ensures sprites == DeleteSprite(old(sprites), id)
      ensures selectedSpriteId == if old(selectedSpriteId) == Some(id) then None else old(selectedSpriteId)
      ensures spriteStates == SyncedStates(old(spriteStates), sprites)
      ensures Valid()
    {
      sprites := DeleteSprite(sprites, id);
      if selectedSpriteId == Some(id) {
        selectedSpriteId := None;
      }
      SyncSpriteStates();
    }

    /** `startAnimation`: snapshot every sprite's script and start playing.
        The timer it starts is outside the model. */
    method StartAnimation()
      modifies this`originalScripts, this`isPlaying
      ensures originalScripts == Snapshot(sprites)
      ensures isPlaying
    {
      var originals: map<string, seq<Block>> := map[];
      for i := 0 to |sprites|
        invariant originals == Snapshot(sprites[..i])
      {
        assert sprites[..i + 1][..i] == sprites[..i];
        originals := originals[sprites[i].id := sprites[i].scripts];
      }
      assert sprites[..|sprites|] == sprites;
      originalScripts := originals;
      isPlaying := true;
    }

    /** `stopAnimation`: stop playing; scripts and poses stay as they are. */
    method StopAnimation()
      modifies this`isPlaying
      ensures !isPlaying
    {
      isPlaying := false;
    }

    /** `resetAnimation`: stop, then put every sprite back at rest. */
    method ResetAnimation()
      modifies this`isPlaying, this`spriteStates
      ensures !isPlaying
      ensures spriteStates == RestStates(sprites)
      ensures Valid() && AllConsistent(spriteStates)
    {
      StopAnimation();
      var resetStates: map<string, Pose> := map[];
      for i := 0 to |sprites|
        invariant resetStates == RestStates(sprites[..i])
        invariant !isPlaying
      {
        IdsPrefix(sprites, i);
        resetStates := resetStates[sprites[i].id := Rest];
      }
      assert sprites[..|sprites|] == sprites;
      spriteStates := resetStates;
      RestIsConsistent();
    }

    /** `handleCollision`: while playing and with both sprites listed, rebuild
        their scripts from the start snapshot. Poses are not touched. */
    method HandleCollision(spriteId1: string, spriteId2: string)
      requires Valid()
      modifies this`sprites
      ensures sprites == Collide(isPlaying, old(sprites), originalScripts, spriteId1, spriteId2)
      ensures Valid()
    {
      ghost var expected := Collide(isPlaying, sprites, originalScripts, spriteId1, spriteId2);
      if !isPlaying {
        return;
      }
      var sprite1 := Find(sprites, spriteId1);
      var sprite2 := Find(sprites, spriteId2);
      if sprite1.None? || sprite2.None? {
        return;
      }
      var originalScripts1 := Original(originalScripts, spriteId1);
      var originalScripts2 := Original(originalScripts, spriteId2);
      var updatedSprite1 := sprite1.value.(scripts := Recombine(originalScripts1, originalScripts2));
      var updatedSprite2 := sprite2.value.(scripts := Recombine(originalScripts2, originalScripts1));
      assert expected == ReplaceById(sprites, spriteId1, updatedSprite1, spriteId2, updatedSprite2);
      sprites := ReplaceById(sprites, spriteId1, updatedSprite1, spriteId2, updatedSprite2);
    }

    /** `executeScriptsForSprite`: if the sprite is listed, run `scripts` on a
        copy of its pose in `base` (the pose map the tick reads) and store the
        result under its id. */
    method ExecuteScriptsForSprite(spriteId: string, scripts: seq<Block>, base: map<string, Pose>)
      requires spriteId in Ids(sprites) ==> spriteId in base
      modifies this`spriteStates
      ensures spriteStates == if spriteId in Ids(sprites)
        then old(spriteStates)[spriteId := Run(base[spriteId], scripts, compass)]
        else old(spriteStates)
    {
      var sprite := Find(sprites, spriteId);
      if sprite.None? {
        return;
      }
      var state := new PoseCell(base[spriteId]);
      state.ProcessScript(scripts, compass);
      spriteStates := spriteStates[spriteId := state.Value()];
    }

    /** One firing of the animation timer: every listed sprite runs its
        current script. */
    method Tick()
      requires Valid()
      modifies this`spriteStates
      ensures spriteStates == TickStates(old(spriteStates), sprites, compass)
      ensures Valid()
    {
      var base := spriteStates;
      for i := 0 to |sprites|
        invariant Ids(sprites[..i]) <= base.Keys
        invariant spriteStates == TickStates(base, sprites[..i], compass)
      {
        IdsPrefix(sprites, i);
        assert sprites[..i + 1][..i] == sprites[..i];
        assert sprites[i] in sprites;
        ExecuteScriptsForSprite(sprites[i].id, sprites[i].scripts, base);
      }
      assert sprites[..|sprites|] == sprites;
    }
  }
}
