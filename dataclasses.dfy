/** The desired-output records a bot hands to the engine
    (wikidata_bot_framework/dataclasses.py): qualifiers to add, references to
    add or merge, and properties to add, with their per-record policy flags. */
module DataClasses {
  import opened Collections
  import opened Constants
  import opened Wikibase

  /** A qualifier to add to the working statement, with its policy flags.
      The engine only ever rebinds its claim, so it is a value here. */
  datatype ExtraQualifier = ExtraQualifier(
    claim: Snak,
    skipIfConflictingExists: bool,
    replaceIfConflictingExists: bool,
    deleteOtherIfReplacing: bool,
    skipIfConflictingLanguageExists: bool,
    makeNewIfConflicting: bool,
    referenceOnly: bool)

  /** `ExtraQualifier.from_property_id_and_value`: a fresh qualifier claim, every flag off. */
  function QualifierFromPropertyIdAndValue(propertyId: PropId, value: Value): (q: ExtraQualifier)
    ensures q.claim == Snak(propertyId, value, false, false)
    ensures !q.skipIfConflictingExists && !q.replaceIfConflictingExists && !q.deleteOtherIfReplacing
    ensures !q.skipIfConflictingLanguageExists && !q.makeNewIfConflicting && !q.referenceOnly
  {
    ExtraQualifier(Snak(propertyId, value, false, false), false, false, false, false, false, false)
  }

  /** A value of the mapping given to `from_property_ids_and_values`: one value or a list. */
  datatype ValueArg = One(value: Value) | Many(values: seq<Value>)

  /** The (property ID, value) pairs named by one mapping entry, in order. */
  function EntryPairs(key: PropId, arg: ValueArg): (r: seq<(PropId, Value)>)
    ensures arg.One? ==> r == [(key, arg.value)]
    ensures arg.Many? ==> |r| == |arg.values| && forall i :: 0 <= i < |r| ==> r[i] == (key, arg.values[i])
  {
    match arg
    case One(v) => [(key, v)]
    case Many(vs) => seq(|vs|, i requires 0 <= i < |vs| => (key, vs[i]))
  }

  /** Every entry of a mapping expanded into its pairs, entry after entry. */
  function Expand(final: Entries<PropId, ValueArg>): seq<(PropId, Value)>
  {
    if final == [] then [] else EntryPairs(final[0].0, final[0].1) + Expand(final[1..])
  }

  lemma {:induction false} ExpandAppend(a: Entries<PropId, ValueArg>, b: Entries<PropId, ValueArg>)
    ensures Expand(a + b) == Expand(a) + Expand(b)
  {
    if a == [] {
      assert a + b == b;
    } else {
      assert (a + b)[0] == a[0];
      assert (a + b)[1..] == a[1..] + b;
      ExpandAppend(a[1..], b);
      var head := EntryPairs(a[0].0, a[0].1);
      calc {
        Expand(a + b);
        head + Expand(a[1..] + b);
        head + (Expand(a[1..]) + Expand(b));
        (head + Expand(a[1..])) + Expand(b);
      }
    }
  }

  /** What `from_property_ids_and_values` iterates over: `{**(mapping or {}), **kwargs}`. */
  function FinalMapping(mapping: Option<Entries<PropId, ValueArg>>, kwargs: Entries<PropId, ValueArg>): Entries<PropId, ValueArg>
  {
    Merge(if mapping.Some? then mapping.value else [], kwargs)
  }

  /** Keyword entries override mapping entries with the same key. */
  lemma KeywordsOverride(mapping: Option<Entries<PropId, ValueArg>>, kwargs: Entries<PropId, ValueArg>, key: PropId)
    requires DistinctKeys(kwargs)
    ensures Get(FinalMapping(mapping, kwargs), key) ==
      if Get(kwargs, key).Some? then Get(kwargs, key)
      else if mapping.Some? then Get(mapping.value, key) else None
  {
    GetMerge(if mapping.Some? then mapping.value else [], kwargs, key);
  }

  /** `ExtraQualifier.from_property_ids_and_values(mapping, **kwargs)`: one qualifier per
      scalar value and one per element of each list value, in mapping order. */
  method QualifiersFromPropertyIdsAndValues(mapping: Option<Entries<PropId, ValueArg>>, kwargs: Entries<PropId, ValueArg>)
    returns (retvals: seq<ExtraQualifier>)
    ensures |retvals| == |Expand(FinalMapping(mapping, kwargs))|
    ensures forall i :: 0 <= i < |retvals| ==>
      var (key, value) := Expand(FinalMapping(mapping, kwargs))[i];
      retvals[i] == QualifierFromPropertyIdAndValue(key, value)
  {
    var final := FinalMapping(mapping, kwargs);
    retvals := [];
    var n := 0;
    while n < |final|
      invariant 0 <= n <= |final|
      invariant |retvals| == |Expand(final[..n])|
      invariant forall i :: 0 <= i < |retvals| ==>
        retvals[i] == QualifierFromPropertyIdAndValue(Expand(final[..n])[i].0, Expand(final[..n])[i].1)
    {
      var (key, value) := final[n];
      var added: seq<ExtraQualifier>;
      match value {
        case Many(vs) =>
          added := seq(|vs|, i requires 0 <= i < |vs| => QualifierFromPropertyIdAndValue(key, vs[i]));
        case One(v) =>
          added := [QualifierFromPropertyIdAndValue(key, v)];
      }
      assert final[..n + 1] == final[..n] + [final[n]];
      ExpandAppend(final[..n], [final[n]]);
      assert Expand([final[n]]) == EntryPairs(key, value);
      retvals := retvals + added;
      n := n + 1;
    }
    assert final[..n] == final;
  }

  /** Python's `retrieved` init argument: `None` (use today), a date, or `False`. */
  datatype Retrieved = RetrievedToday | RetrievedOn(date: Value) | NotRetrieved

  /** `ExtraReference.__post_init__`: the reference properties after the
      "retrieved" claim is filled in; `today` stands for the clock. */
  function PostInitProps(props: Entries<PropId, Snak>, retrieved: Retrieved, today: Value): (r: Entries<PropId, Snak>)
    ensures retrieved.NotRetrieved? ==> r == props
    ensures retrieved.RetrievedOn? ==> Get(r, RetrievedProp) == Some(Snak(RetrievedProp, retrieved.date, false, false))
    ensures retrieved.RetrievedToday? ==> Get(r, RetrievedProp) == Some(Snak(RetrievedProp, today, false, false))
    ensures forall k :: k != RetrievedProp ==> Get(r, k) == Get(props, k)
  {
    var date := match retrieved
      case RetrievedToday => Some(today)
      case RetrievedOn(d) => Some(d)
      case NotRetrieved => None;
    if date.Some? then
      var r := Put(props, RetrievedProp, Snak(RetrievedProp, date.value, false, false));
      assert forall k :: Get(r, k) == if k == RetrievedProp then Some(Snak(RetrievedProp, date.value, false, false)) else Get(props, k) by {
        forall k ensures Get(r, k) == if k == RetrievedProp then Some(Snak(RetrievedProp, date.value, false, false)) else Get(props, k) {
          GetPut(props, RetrievedProp, Snak(RetrievedProp, date.value, false, false), k);
        }
      }
      r
    else props
  }

  /** The string a URL pattern is matched against, for string-valued targets. */
  function StringOf(v: Value): Option<string>
  {
    match v
    case Url(s) => Some(s)
    case Text(s) => Some(s)
    case _ => None
  }

  /** Some claim in `cs` has a truthy string target accepted by `pattern`. */
  function AnyUrlMatches(cs: seq<Snak>, pattern: string -> bool): (r: bool)
    ensures r <==> exists i :: 0 <= i < |cs| && Truthy(cs[i].target) && StringOf(cs[i].target).Some?
                                && pattern(StringOf(cs[i].target).value)
  {
    if cs == [] then false
    else
      var t := cs[0].target;
      if Truthy(t) && StringOf(t).Some? && pattern(StringOf(t).value) then true
      else
        var rest := AnyUrlMatches(cs[1..], pattern);
        assert forall i :: 1 <= i < |cs| ==> cs[i] == cs[1..][i - 1];
        rest
  }

  /** Some claim in `cs` has target `t`. */
  function AnyTargetEquals(cs: seq<Snak>, t: Value): (r: bool)
    ensures r <==> exists i :: 0 <= i < |cs| && cs[i].target == t
  {
    if cs == [] then false
    else if cs[0].target == t then true
    else
      var rest := AnyTargetEquals(cs[1..], t);
      assert forall i :: 1 <= i < |cs| ==> cs[i] == cs[1..][i - 1];
      rest
  }

  /** Some matcher entry names a property present in `reference` with a claim of the matcher's target. */
  function AnyPropertyMatches(matchers: Entries<PropId, Snak>, reference: RefGroup): (r: bool)
    ensures r <==> exists i :: 0 <= i < |matchers| && matchers[i].0 in reference
                             && exists c :: c in reference[matchers[i].0] && c.target == matchers[i].1.target
  {
    if matchers == [] then false
    else
      var (prop, claim) := matchers[0];
      if prop in reference && AnyTargetEquals(reference[prop], claim.target) then
        assert exists c :: c in reference[prop] && c.target == claim.target by {
          var i :| 0 <= i < |reference[prop]| && reference[prop][i].target == claim.target;
          assert reference[prop][i] in reference[prop];
        }
        true
      else
        var rest := AnyPropertyMatches(matchers[1..], reference);
        assert forall i :: 1 <= i < |matchers| ==> matchers[i] == matchers[1..][i - 1];
        assert prop in reference ==> !exists c :: c in reference[prop] && c.target == claim.target;
        rest
  }

  /** A reference to add to the working statement: a matcher (URL pattern and
      property values) deciding which existing group it belongs to, and the
      claims it contributes. */
  class ExtraReference {
    var matchPropertyValues: Entries<PropId, Snak>
    var urlMatchPattern: Option<string -> bool>
    var newReferenceProps: Entries<PropId, Snak>

    /** The dataclass constructor followed by `__post_init__(retrieved)`. */
    constructor (matchPropertyValues: Entries<PropId, Snak>, urlMatchPattern: Option<string -> bool>,
                 newReferenceProps: Entries<PropId, Snak>, retrieved: Retrieved, today: Value)
      ensures this.matchPropertyValues == matchPropertyValues
      ensures this.urlMatchPattern == urlMatchPattern
      ensures this.newReferenceProps == PostInitProps(newReferenceProps, retrieved, today)
    {
      this.matchPropertyValues := matchPropertyValues;
      this.urlMatchPattern := urlMatchPattern;
      this.newReferenceProps := PostInitProps(newReferenceProps, retrieved, today);
    }

    /** `add_claim`: the claim becomes the reference property for its ID, replacing
        any earlier one; it also becomes a matcher only when asked. */
    method AddClaim(claim: Snak, alsoMatchPropertyValues: bool)
      modifies this
      ensures newReferenceProps == Put(old(newReferenceProps), claim.id, claim)
      ensures matchPropertyValues == if alsoMatchPropertyValues then Put(old(matchPropertyValues), claim.id, claim)
                                     else old(matchPropertyValues)
      ensures urlMatchPattern == old(urlMatchPattern)
    {
      if alsoMatchPropertyValues {
        matchPropertyValues := Put(matchPropertyValues, claim.id, claim);
      }
      newReferenceProps := Put(newReferenceProps, claim.id, claim);
    }

    /** What the reference tier reads of this reference, as a value. */
    function Spec(): ReferenceSpec
      reads this
    {
      ReferenceSpec(matchPropertyValues, urlMatchPattern, newReferenceProps)
    }
  }

  /** The fields of an `ExtraReference`, as a value. */
  datatype ReferenceSpec = ReferenceSpec(
    matchPropertyValues: Entries<PropId, Snak>,
    urlMatchPattern: Option<string -> bool>,
    newReferenceProps: Entries<PropId, Snak>)

  /** The values of some desired references, in order. */
  function SpecsOf(refs: seq<ExtraReference>): (r: seq<ReferenceSpec>)
    reads set x | x in refs
    ensures |r| == |refs| && forall i :: 0 <= i < |refs| ==> r[i] == refs[i].Spec()
  {
    if refs == [] then [] else [refs[0].Spec()] + SpecsOf(refs[1..])
  }

  /** `ExtraReference.is_compatible_reference(reference)`, on the reference `spec`:
      the existing group has a truthy URL under P854 accepted by the pattern, or
      holds one of the matcher's values under its property. */
  function IsCompatibleReference(spec: ReferenceSpec, reference: RefGroup): (r: bool)
    ensures spec.urlMatchPattern.None? && spec.matchPropertyValues == [] ==> !r
    ensures r <==>
      (spec.urlMatchPattern.Some? && UrlProp in reference
        && exists i :: 0 <= i < |reference[UrlProp]| && Truthy(reference[UrlProp][i].target)
             && StringOf(reference[UrlProp][i].target).Some?
             && spec.urlMatchPattern.value(StringOf(reference[UrlProp][i].target).value))
      || (exists i :: 0 <= i < |spec.matchPropertyValues| && spec.matchPropertyValues[i].0 in reference
             && exists c :: c in reference[spec.matchPropertyValues[i].0] && c.target == spec.matchPropertyValues[i].1.target)
  {
    if spec.urlMatchPattern.Some? && UrlProp in reference && AnyUrlMatches(reference[UrlProp], spec.urlMatchPattern.value) then
      true
    else
      AnyPropertyMatches(spec.matchPropertyValues, reference)
  }

  /** `ExtraReference.from_reference_claim`: an empty reference (retrieved today) with one claim. */
  method ReferenceFromReferenceClaim(claim: Snak, alsoMatchPropertyValues: bool, today: Value)
    returns (r: ExtraReference)
    ensures fresh(r)
    ensures r.newReferenceProps == Put(PostInitProps([], RetrievedToday, today), claim.id, claim)
    ensures r.matchPropertyValues == if alsoMatchPropertyValues then [(claim.id, claim)] else []
    ensures r.urlMatchPattern.None?
  {
    r := new ExtraReference([], None, [], RetrievedToday, today);
    r.AddClaim(claim, alsoMatchPropertyValues);
  }

  /** `_qualifier_sorter`: does the group hold a qualifier that makes a new claim on conflict? */
  predicate HasMakeNew(group: (PropId, seq<ExtraQualifier>))
  {
    exists i :: 0 <= i < |group.1| && group.1[i].makeNewIfConflicting
  }

  /** The groups whose `HasMakeNew` is `keep`, in their original order. */
  function Filter(groups: Entries<PropId, seq<ExtraQualifier>>, keep: bool): Entries<PropId, seq<ExtraQualifier>>
  {
    if groups == [] then []
    else (if HasMakeNew(groups[0]) == keep then [groups[0]] else []) + Filter(groups[1..], keep)
  }

  /** `sorted(qualifiers.items(), key=_qualifier_sorter, reverse=True)`: a stable sort
      on a boolean key, largest first, which puts the make-new groups in front. */
  function SortedQualifiers(groups: Entries<PropId, seq<ExtraQualifier>>): Entries<PropId, seq<ExtraQualifier>>
  {
    Filter(groups, true) + Filter(groups, false)
  }

  lemma {:induction false} FilterClass(groups: Entries<PropId, seq<ExtraQualifier>>, keep: bool)
    ensures forall g :: g in Filter(groups, keep) ==> g in groups && HasMakeNew(g) == keep
  {
    if groups != [] {
      FilterClass(groups[1..], keep);
    }
  }

  lemma {:induction false} FilterIdempotent(groups: Entries<PropId, seq<ExtraQualifier>>, keep: bool)
    ensures Filter(Filter(groups, keep), keep) == Filter(groups, keep)
    ensures Filter(Filter(groups, keep), !keep) == []
  {
    if groups != [] {
      FilterIdempotent(groups[1..], keep);
      var head := if HasMakeNew(groups[0]) == keep then [groups[0]] else [];
      FilterAppend(head, Filter(groups[1..], keep), keep);
      FilterAppend(head, Filter(groups[1..], keep), !keep);
    }
  }

  lemma {:induction false} FilterAppend(a: Entries<PropId, seq<ExtraQualifier>>, b: Entries<PropId, seq<ExtraQualifier>>, keep: bool)
    ensures Filter(a + b, keep) == Filter(a, keep) + Filter(b, keep)
  {
    if a == [] {
      assert a + b == b;
    } else {
      assert (a + b)[0] == a[0];
      assert (a + b)[1..] == a[1..] + b;
      FilterAppend(a[1..], b, keep);
      var head := if HasMakeNew(a[0]) == keep then [a[0]] else [];
      calc {
        Filter(a + b, keep);
        head + Filter(a[1..] + b, keep);
        head + (Filter(a[1..], keep) + Filter(b, keep));
        (head + Filter(a[1..], keep)) + Filter(b, keep);
      }
    }
  }

  lemma {:induction false} FilterSplit(groups: Entries<PropId, seq<ExtraQualifier>>)
    ensures multiset(Filter(groups, true)) + multiset(Filter(groups, false)) == multiset(groups)
  {
    if groups != [] {
      FilterSplit(groups[1..]);
      assert groups == [groups[0]] + groups[1..];
    }
  }

  /** Sorting keeps exactly the same (key, list) groups. */
  lemma SortIsPermutation(groups: Entries<PropId, seq<ExtraQualifier>>)
    ensures multiset(SortedQualifiers(groups)) == multiset(groups)
  {
    FilterSplit(groups);
  }

  /** Every make-new group comes before every other group after sorting. */
  lemma SortPutsMakeNewFirst(groups: Entries<PropId, seq<ExtraQualifier>>)
    ensures forall i, j :: 0 <= i < j < |SortedQualifiers(groups)| && HasMakeNew(SortedQualifiers(groups)[j])
              ==> HasMakeNew(SortedQualifiers(groups)[i])
  {
    var s := SortedQualifiers(groups);
    var n := |Filter(groups, true)|;
    FilterClass(groups, true);
    FilterClass(groups, false);
    forall i | 0 <= i < |s| ensures HasMakeNew(s[i]) <==> i < n {
      if i < n {
        assert s[i] in Filter(groups, true);
      } else {
        assert s[i] in Filter(groups, false);
      }
    }
  }

  /** Within each class the groups keep their original relative order. */
  lemma SortIsStable(groups: Entries<PropId, seq<ExtraQualifier>>)
    ensures Filter(SortedQualifiers(groups), true) == Filter(groups, true)
    ensures Filter(SortedQualifiers(groups), false) == Filter(groups, false)
  {
    FilterAppend(Filter(groups, true), Filter(groups, false), true);
    FilterAppend(Filter(groups, true), Filter(groups, false), false);
    FilterIdempotent(groups, true);
    FilterIdempotent(groups, false);
  }

  /** A property to add to an entity, with its policy flags, the qualifiers to
      add to it (grouped by property, in insertion order) and its references. */
  class ExtraProperty {
    var claim: Claim
    const skipIfConflictingExists: bool
    const replaceIfConflictingExists: bool
    const deleteOtherIfReplacing: bool
    const skipIfConflictingLanguageExists: bool
    const referenceOnly: bool
    var qualifiers: Entries<PropId, seq<ExtraQualifier>>
    var extraReferences: seq<ExtraReference>

    /** The dataclass's fields; `qualifiers` defaults to an empty `defaultdict(list)`
        and `extraReferences` to an empty list when the caller passes none. */
    constructor (claim: Claim, skipIfConflictingExists: bool, replaceIfConflictingExists: bool,
                 deleteOtherIfReplacing: bool, skipIfConflictingLanguageExists: bool, referenceOnly: bool,
                 qualifiers: Entries<PropId, seq<ExtraQualifier>>, extraReferences: seq<ExtraReference>)
      ensures this.claim == claim
      ensures this.skipIfConflictingExists == skipIfConflictingExists
      ensures this.replaceIfConflictingExists == replaceIfConflictingExists
      ensures this.deleteOtherIfReplacing == deleteOtherIfReplacing
      ensures this.skipIfConflictingLanguageExists == skipIfConflictingLanguageExists
      ensures this.referenceOnly == referenceOnly
      ensures this.qualifiers == qualifiers && this.extraReferences == extraReferences
    {
      this.claim := claim;
      this.skipIfConflictingExists := skipIfConflictingExists;
      this.replaceIfConflictingExists := replaceIfConflictingExists;
      this.deleteOtherIfReplacing := deleteOtherIfReplacing;
      this.skipIfConflictingLanguageExists := skipIfConflictingLanguageExists;
      this.referenceOnly := referenceOnly;
      this.qualifiers := qualifiers;
      this.extraReferences := extraReferences;
    }

    /** `add_qualifier`: appended to the list for its claim's property ID. */
    method AddQualifier(qualifier: ExtraQualifier)
      modifies this
      ensures qualifiers == AppendUnder(old(qualifiers), qualifier.claim.id, qualifier)
      ensures claim == old(claim) && extraReferences == old(extraReferences)
    {
      qualifiers := AppendUnder(qualifiers, qualifier.claim.id, qualifier);
    }

    /** `add_reference`: appended to the references. */
    method AddReference(reference: ExtraReference)
      modifies this
      ensures extraReferences == old(extraReferences) + [reference]
      ensures claim == old(claim) && qualifiers == old(qualifiers)
    {
      extraReferences := extraReferences + [reference];
    }

    /** `sort_qualifiers`: make-new groups first, stable otherwise. */
    method SortQualifiers()
      modifies this
      ensures qualifiers == SortedQualifiers(old(qualifiers))
      ensures claim == old(claim) && extraReferences == old(extraReferences)
    {
      qualifiers := SortedQualifiers(qualifiers);
    }
  }

  /** `ExtraProperty.from_property_id_and_value`: a fresh claim, every flag off. */
  method PropertyFromPropertyIdAndValue(propertyId: PropId, value: Value) returns (p: ExtraProperty)
    ensures fresh(p) && fresh(p.claim)
    ensures p.claim.id == propertyId && p.claim.target == value && p.claim.rank == Normal
    ensures p.claim.qualifiers == map[] && p.claim.sources == []
    ensures !p.skipIfConflictingExists && !p.replaceIfConflictingExists && !p.deleteOtherIfReplacing
    ensures !p.skipIfConflictingLanguageExists && !p.referenceOnly
    ensures p.qualifiers == [] && p.extraReferences == []
  {
    var claim := new Claim(propertyId, value);
    p := new ExtraProperty(claim, false, false, false, false, false, [], []);
  }
}
