/** The speculative policy's handling of a verification verdict (spec_intent.py). */
module DraftPolicy {
  import opened Prelude
  import opened Schema
  import opened Simulation
  import opened Drafts

  const MIB := 1048576.0

  /** Records are constructed, so they are valid wherever they are kept. */
  ghost predicate Constructed(blocks: LiveMap) {
    forall k | k in blocks :: Valid(blocks[k])
  }

  /** An accepted draft's block: protected for decoding and no longer a draft. */
  function Promoted(b: MemoryIntent): MemoryIntent {
    b.(priority := DecodeCritical, phase := Decode, pinRequested := true, isDraft := false, isCommitted := true)
  }

  function PromoteAll(blocks: LiveMap, objects: set<string>): LiveMap {
    map k | k in blocks :: if k in objects then Promoted(blocks[k]) else blocks[k]
  }

  function DropAll(blocks: LiveMap, objects: set<string>): LiveMap {
    blocks - objects
  }

  /** How many of `objects` are present, and their total size. */
  function CountIn(blocks: LiveMap, objects: set<string>): nat {
    |objects * blocks.Keys|
  }

  ghost function BytesIn(blocks: LiveMap, objects: set<string>): int {
    Used(blocks, objects * blocks.Keys)
  }

  function ObjectsIn(nodes: seq<DraftNode>): set<string> {
    set d | d in nodes :: d.kvObjectId
  }

  /** The node itself, if the tree has it, and its descendants. */
  ghost function Family(t: DraftTree, x: int): set<int> {
    DescendantsOf(t, x) + if x in t.nodes then {x} else {}
  }

  ghost function ObjectsOf(t: DraftTree, ids: set<int>): set<string> {
    set x | x in ids && x in t.nodes :: t.nodes[x].kvObjectId
  }

  lemma ObjectsAgree(t: DraftTree, ids: seq<int>, members: set<int>)
    requires Enumerates(ids, members) && forall i | 0 <= i < |ids| :: ids[i] in t.nodes
    ensures ObjectsIn(NodesOf(t, ids)) == ObjectsOf(t, members)
  {
    var nodes := NodesOf(t, ids);
    forall k ensures k in ObjectsIn(nodes) <==> k in ObjectsOf(t, members) {
      if k in ObjectsIn(nodes) {
        var i :| 0 <= i < |nodes| && nodes[i].kvObjectId == k;
        assert ids[i] in members;
      }
      if k in ObjectsOf(t, members) {
        var x :| x in members && x in t.nodes && t.nodes[x].kvObjectId == k;
        var i :| 0 <= i < |ids| && ids[i] == x;
        assert nodes[i] in nodes;
      }
    }
  }

  lemma ObjectsSnoc(nodes: seq<DraftNode>, i: nat)
    requires i < |nodes|
    ensures ObjectsIn(nodes[..i + 1]) == ObjectsIn(nodes[..i]) + {nodes[i].kvObjectId}
  {
    assert nodes[..i + 1] == nodes[..i] + [nodes[i]];
  }

  class SpeculativeIntentPolicy {
    var draftBlocksFreed: nat
    var wastedMb: real

    constructor ()
      ensures draftBlocksFreed == 0 && wastedMb == 0.0
    {
      draftBlocksFreed := 0;
      wastedMb := 0.0;
    }

    /** Accepting a node promotes it and all its descendants; rejecting it drops them, and counts each dropped
        block and its size once. */
    method ProcessVerifyEvent(event: Event, t: DraftTree, accepted: bool, blocks: LiveMap)
      returns (blocks': LiveMap)
      requires Keyed(t) && !Descends(t, event.intent.blockId, event.intent.blockId) && Constructed(blocks)
      modifies this
      ensures var gone := ObjectsOf(t, Family(t, event.intent.blockId));
        if accepted then
          && blocks' == PromoteAll(blocks, gone)
          && draftBlocksFreed == old(draftBlocksFreed) && wastedMb == old(wastedMb)
        else
          && blocks' == DropAll(blocks, gone)
          && draftBlocksFreed == old(draftBlocksFreed) + CountIn(blocks, gone)
          && wastedMb == old(wastedMb) + BytesIn(blocks, gone) as real / MIB
    {
      hide FoundAfter, AfterTurns, Descends, DescendantsOf, Keyed, Enumerates, NodesOf, ObjectsIn, ObjectsOf, Family;
      hide PromoteAll, Promoted, Construct, Constructed, DropAll, CountIn, BytesIn;
      var nodeId := event.intent.blockId;
      var found, ids := Descendants(t, nodeId);
      var nodes := (if nodeId in t.nodes then [t.nodes[nodeId]] else []) + found;
      FamilyObjects(t, nodeId, found, ids);
      blocks' := blocks;
      assert nodes[..|nodes|] == nodes;
      NothingYet(blocks, nodes);
      if accepted {
        for i := 0 to |nodes|
          invariant blocks' == PromoteAll(blocks, ObjectsIn(nodes[..i]))
          invariant draftBlocksFreed == old(draftBlocksFreed) && wastedMb == old(wastedMb)
        {
          ObjectsSnoc(nodes, i);
          var id := nodes[i].kvObjectId;
          PromoteOneMore(blocks, ObjectsIn(nodes[..i]), id);
          if id in blocks' {
            blocks' := blocks'[id := Construct(Promoted(blocks'[id])).value];
          }
        }
        return;
      }
      for i := 0 to |nodes|
        invariant var gone := ObjectsIn(nodes[..i]);
          && blocks' == DropAll(blocks, gone)
          && draftBlocksFreed == old(draftBlocksFreed) + CountIn(blocks, gone)
          && wastedMb == old(wastedMb) + BytesIn(blocks, gone) as real / MIB
      {
        ObjectsSnoc(nodes, i);
        var id := nodes[i].kvObjectId;
        DropOneMore(blocks, ObjectsIn(nodes[..i]), id);
        if id in blocks' {
          draftBlocksFreed := draftBlocksFreed + 1;
          wastedMb := wastedMb + blocks'[id].sizeBytes as real / MIB;
          blocks' := blocks' - {id};
        }
      }
    }
  }

  lemma NothingYet(blocks: LiveMap, nodes: seq<DraftNode>)
    ensures ObjectsIn(nodes[..0]) == {} && PromoteAll(blocks, {}) == blocks
    ensures DropAll(blocks, {}) == blocks && CountIn(blocks, {}) == 0 && BytesIn(blocks, {}) == 0
  {
    assert {} * blocks.Keys == {};
  }

  lemma PromoteOneMore(blocks: LiveMap, gone: set<string>, id: string)
    requires Constructed(blocks)
    ensures var sofar := PromoteAll(blocks, gone);
      && sofar.Keys == blocks.Keys
      && (id in sofar ==>
            && Construct(Promoted(sofar[id])).Ok? && Construct(Promoted(sofar[id])).value.objectId == id
            && sofar[id := Construct(Promoted(sofar[id])).value] == PromoteAll(blocks, gone + {id}))
      && (id !in sofar ==> sofar == PromoteAll(blocks, gone + {id}))
  {
    if id in blocks {
      PromotedTwice(blocks[id]);
    }
    hide Promoted, Construct, Valid;
  }

  lemma PromotedTwice(b: MemoryIntent)
    ensures Promoted(Promoted(b)) == Promoted(b) && Promoted(b).objectId == b.objectId
    ensures Valid(b) ==> Construct(Promoted(b)) == Ok(Promoted(b))
  {
    ConstructYieldsValid(Promoted(b));
  }

  lemma DropOneMore(blocks: LiveMap, gone: set<string>, id: string)
    ensures id in DropAll(blocks, gone) <==> id in blocks && id !in gone
    ensures DropAll(blocks, gone + {id}) == DropAll(blocks, gone) - {id}
    ensures id in DropAll(blocks, gone) ==>
      && CountIn(blocks, gone + {id}) == CountIn(blocks, gone) + 1
      && BytesIn(blocks, gone + {id}) == BytesIn(blocks, gone) + DropAll(blocks, gone)[id].sizeBytes
    ensures id !in DropAll(blocks, gone) ==>
      && DropAll(blocks, gone + {id}) == DropAll(blocks, gone)
      && CountIn(blocks, gone + {id}) == CountIn(blocks, gone) && BytesIn(blocks, gone + {id}) == BytesIn(blocks, gone)
  {
    CountOneMore(blocks, gone, id);
    hide CountIn, BytesIn;
  }

  lemma CountOneMore(blocks: LiveMap, gone: set<string>, id: string)
    ensures id in blocks && id !in gone ==>
      && CountIn(blocks, gone + {id}) == CountIn(blocks, gone) + 1
      && BytesIn(blocks, gone + {id}) == BytesIn(blocks, gone) + blocks[id].sizeBytes
    ensures !(id in blocks && id !in gone) ==>
      CountIn(blocks, gone + {id}) == CountIn(blocks, gone) && BytesIn(blocks, gone + {id}) == BytesIn(blocks, gone)
  {
    var now, next := gone * blocks.Keys, (gone + {id}) * blocks.Keys;
    hide Used;
    if id in blocks && id !in gone {
      assert next - {id} == now && next == now + {id};
      UsedSplit(blocks, next, id);
    } else {
      assert next == now;
    }
  }

  lemma FamilyObjects(t: DraftTree, x: int, found: seq<DraftNode>, ids: seq<int>)
    requires Enumerates(ids, DescendantsOf(t, x))
    requires (forall i | 0 <= i < |ids| :: ids[i] in t.nodes) && found == NodesOf(t, ids)
    ensures ObjectsIn((if x in t.nodes then [t.nodes[x]] else []) + found) == ObjectsOf(t, Family(t, x))
  {
    ObjectsAgree(t, ids, DescendantsOf(t, x));
    hide Descends, DescendantsOf, Enumerates;
    var own := if x in t.nodes then [t.nodes[x]] else [];
    assert ObjectsIn(own + found) == ObjectsIn(own) + ObjectsIn(found);
    assert ObjectsOf(t, Family(t, x)) == ObjectsOf(t, DescendantsOf(t, x)) + ObjectsIn(own);
  }
}
