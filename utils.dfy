/** In-place mutation helpers the engine uses (wikidata_bot_framework/utils.py). */
module Utils {
  import opened Collections
  import opened Constants
  import opened Wikibase
  import opened DataClasses

  /** `add_claim_locally`: the claim goes last in the list for its own property ID. */
  method AddClaimLocally(item: Entity, claim: Claim)
    modifies item
    ensures item.claims == AppendTo(old(item.claims), claim.id, claim)
  {
    item.claims := AppendTo(item.claims, claim.id, claim);
  }

  /** The qualifier claim as stored: `isQualifier` set. */
  function AsQualifier(q: Snak): Snak
  {
    q.(isQualifier := true)
  }

  /** The reference claim as stored: `isReference` set. */
  function AsReference(r: Snak): Snak
  {
    r.(isReference := true)
  }

  /** `add_qualifier_locally`: marked as a qualifier and appended under its own
      property ID on that claim; nothing else about the claim changes. */
  method AddQualifierLocally(claim: Claim, qualifier: Snak)
    modifies claim
    ensures claim.qualifiers == AppendTo(old(claim.qualifiers), qualifier.id, AsQualifier(qualifier))
    ensures claim.target == old(claim.target) && claim.rank == old(claim.rank) && claim.sources == old(claim.sources)
  {
    claim.qualifiers := AppendTo(claim.qualifiers, qualifier.id, AsQualifier(qualifier));
  }

  /** `append_to_source`: appended under its ID in reference group `index`. */
  method AppendToSource(claim: Claim, source: Snak, index: nat)
    requires index < |claim.sources|
    modifies claim
    ensures |claim.sources| == |old(claim.sources)|
    ensures claim.sources == old(claim.sources)[index := AppendTo(old(claim.sources)[index], source.id, AsReference(source))]
    ensures claim.target == old(claim.target) && claim.rank == old(claim.rank) && claim.qualifiers == old(claim.qualifiers)
  {
    claim.sources := claim.sources[index := AppendTo(claim.sources[index], source.id, AsReference(source))];
  }

  /** The reference group built from `refs` by appending each under its ID. */
  function Grouped(refs: seq<Snak>): RefGroup
  {
    if refs == [] then map[] else AppendTo(Grouped(refs[..|refs| - 1]), refs[|refs| - 1].id, AsReference(refs[|refs| - 1]))
  }

  /** The claims of `refs` with property ID `k`, in order, marked as references. */
  function WithId(refs: seq<Snak>, k: PropId): seq<Snak>
  {
    if refs == [] then []
    else WithId(refs[..|refs| - 1], k) + (if refs[|refs| - 1].id == k then [AsReference(refs[|refs| - 1])] else [])
  }

  /** The group holds each given claim under its own ID, in the given order, and nothing else. */
  lemma {:induction false} GroupedContents(refs: seq<Snak>)
    ensures forall k :: k in Grouped(refs) <==> exists i :: 0 <= i < |refs| && refs[i].id == k
    ensures forall k :: Lookup(Grouped(refs), k) == WithId(refs, k)
  {
    if refs != [] {
      var init := refs[..|refs| - 1];
      GroupedContents(init);
      forall k ensures k in Grouped(refs) <==> exists i :: 0 <= i < |refs| && refs[i].id == k {
        if k in Grouped(init) {
          var i :| 0 <= i < |init| && init[i].id == k;
          assert refs[i] == init[i];
        }
        if exists i :: 0 <= i < |refs| && refs[i].id == k {
          var i :| 0 <= i < |refs| && refs[i].id == k;
          if i < |init| {
            assert init[i] == refs[i];
          }
        }
      }
    }
  }

  /** `add_reference_locally`: exactly one new reference group, holding the given
      claims; the earlier groups are untouched. */
  method AddReferenceLocally(claim: Claim, refs: seq<Snak>)
    modifies claim
    ensures claim.sources == old(claim.sources) + [Grouped(refs)]
    ensures claim.target == old(claim.target) && claim.rank == old(claim.rank) && claim.qualifiers == old(claim.qualifiers)
  {
    claim.sources := claim.sources + [map[]];
    var i := 0;
    while i < |refs|
      invariant 0 <= i <= |refs|
      invariant claim.sources == old(claim.sources) + [Grouped(refs[..i])]
      invariant claim.target == old(claim.target) && claim.rank == old(claim.rank) && claim.qualifiers == old(claim.qualifiers)
    {
      AppendToSource(claim, refs[i], |claim.sources| - 1);
      assert refs[..i + 1][..i] == refs[..i];
      i := i + 1;
    }
    assert refs[..i] == refs;
  }

  /** One step of `merge_reference_groups`: a claim whose ID the group lacks is added. */
  function MergeStep(group: RefGroup, r: Snak): RefGroup
  {
    if r.id in group then group else group[r.id := [r]]
  }

  /** The group after `merge_reference_groups(group, refs)`. */
  function MergedGroup(group: RefGroup, refs: seq<Snak>): RefGroup
  {
    if refs == [] then group else MergeStep(MergedGroup(group, refs[..|refs| - 1]), refs[|refs| - 1])
  }

  /** `merge_reference_groups`: add each new reference whose property ID the group
      does not hold yet; report whether anything was added. `ordered` says the group
      is one pywikibot loaded from the server, an `OrderedDict` rather than a
      `defaultdict(list)`: there `reference_group[id]` on the first absent ID raises
      `KeyError` (`raised`), and nothing has been added before it. */
  method MergeReferenceGroups(group: RefGroup, newReferences: seq<Snak>, ordered: bool)
    returns (merged: RefGroup, acted: bool, raised: bool)
    ensures raised <==> ordered && exists i :: 0 <= i < |newReferences| && newReferences[i].id !in group
    ensures raised ==> merged == group && !acted
    ensures !raised ==> merged == MergedGroup(group, newReferences)
    ensures !raised ==> (acted <==> exists i :: 0 <= i < |newReferences| && newReferences[i].id !in group)
  {
    merged := group;
    acted := false;
    raised := false;
    var i := 0;
    while i < |newReferences|
      invariant 0 <= i <= |newReferences|
      invariant merged == MergedGroup(group, newReferences[..i])
      invariant acted <==> exists j :: 0 <= j < i && newReferences[j].id !in group
      invariant ordered ==> merged == group && !acted
    {
      MergedKeys(group, newReferences[..i]);
      var r := newReferences[i];
      assert newReferences[..i + 1][..i] == newReferences[..i];
      assert MergedGroup(group, newReferences[..i + 1]) == MergeStep(merged, r);
      if r.id !in merged {
        if ordered {
          raised := true;
          return;
        }
        assert Lookup(merged, r.id) + [r] == [r];
        merged := merged[r.id := Lookup(merged, r.id) + [r]];
        acted := true;
      } else if r.id !in group {
        var j :| 0 <= j < i && newReferences[..i][j].id == r.id;
        assert newReferences[j].id !in group;
      }
      i := i + 1;
    }
    assert newReferences[..i] == newReferences;
  }

  /** The property IDs of some claims. */
  ghost function IdsOf(refs: seq<Snak>): set<PropId>
  {
    set i | 0 <= i < |refs| :: refs[i].id
  }

  /** Merging keeps every list already in the group and adds exactly the missing IDs. */
  lemma {:induction false} MergedKeys(group: RefGroup, refs: seq<Snak>)
    ensures MergedGroup(group, refs).Keys == group.Keys + IdsOf(refs)
    ensures forall k :: k in group ==> MergedGroup(group, refs)[k] == group[k]
  {
    if refs != [] {
      var init := refs[..|refs| - 1];
      MergedKeys(group, init);
      assert IdsOf(refs) == IdsOf(init) + {refs[|refs| - 1].id} by {
        forall k | k in IdsOf(refs)
          ensures k in IdsOf(init) + {refs[|refs| - 1].id}
        {
          var i :| 0 <= i < |refs| && refs[i].id == k;
          if i < |init| { assert init[i] == refs[i]; }
        }
        forall k | k in IdsOf(init)
          ensures k in IdsOf(refs)
        {
          var i :| 0 <= i < |init| && init[i].id == k;
          assert refs[i] == init[i];
        }
      }
    }
  }

  /** After merging, every new reference's ID is present. */
  lemma AllIdsPresentAfterMerge(group: RefGroup, refs: seq<Snak>)
    ensures forall i :: 0 <= i < |refs| ==> refs[i].id in MergedGroup(group, refs)
  {
    MergedKeys(group, refs);
  }

  /** Merging the references of a group that already has all their IDs changes nothing. */
  lemma {:induction false} MergeWhenAllPresent(group: RefGroup, refs: seq<Snak>)
    requires forall i :: 0 <= i < |refs| ==> refs[i].id in group
    ensures MergedGroup(group, refs) == group
  {
    if refs != [] {
      var init := refs[..|refs| - 1];
      assert forall i :: 0 <= i < |init| ==> init[i] == refs[i];
      MergeWhenAllPresent(group, init);
    }
  }

  /** Merging the same references twice: the second merge adds nothing and reports nothing. */
  lemma MergeIdempotent(group: RefGroup, refs: seq<Snak>)
    ensures MergedGroup(MergedGroup(group, refs), refs) == MergedGroup(group, refs)
    ensures !exists i :: 0 <= i < |refs| && refs[i].id !in MergedGroup(group, refs)
  {
    AllIdsPresentAfterMerge(group, refs);
    MergeWhenAllPresent(MergedGroup(group, refs), refs);
  }

  /** `OutputHelper`: a `defaultdict(list)` from property ID to the properties to add. */
  class OutputHelper {
    var entries: Entries<PropId, seq<ExtraProperty>>

    constructor ()
      ensures entries == []
    {
      entries := [];
    }

    /** `add_property`: appended under its claim's property ID; other keys unchanged. */
    method AddProperty(prop: ExtraProperty)
      modifies this
      ensures entries == AppendUnder(old(entries), prop.claim.id, prop)
    {
      entries := AppendUnder(entries, prop.claim.id, prop);
    }
  }
}
