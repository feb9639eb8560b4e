/** The categories of change the engine reports to the processed hook
    (wikidata_bot_framework/process_reason.py). */
module ProcessReasons {

  datatype ProcessReason =
    | MissingProperty
    | MissingValue
    | DifferentRank
    | ReplaceValue
    | DeleteValues
    | MissingQualifierProperty
    | MissingQualifierValue
    | ReplaceQualifierValue
    | DeleteQualifierValues
    | NewClaimFromQualifier
    | MergedReference
    | MissingReference
    | PostOutput
  {
    /** A new main claim was added. */
    predicate NewClaimWasAdded()
    {
      this in {MissingProperty, MissingValue, NewClaimFromQualifier}
    }

    /** A main claim was added or changed. `claim_modified` calls
        `self.new_claim_was_added(self)`, which raises; this is the documented intent. */
    predicate ClaimModified()
    {
      NewClaimWasAdded() || this in {DifferentRank, ReplaceValue, DeleteValues}
    }

    /** A new qualifier was added. */
    predicate NewQualifierWasAdded()
    {
      this in {MissingQualifierProperty, MissingQualifierValue}
    }

    /** A qualifier was added or changed (same remark as for ClaimModified). */
    predicate QualifierModified()
    {
      NewQualifierWasAdded() || this in {ReplaceQualifierValue, DeleteQualifierValues}
    }

    /** A reference group was added or merged into. */
    predicate ReferenceModified()
    {
      this in {MissingReference, MergedReference}
    }
  }

  /** Which tier of a statement a reason's change happens at; an independent
      description of the categories, against which the classifiers are checked. */
  datatype Tier = StatementTier | QualifierTier | ReferenceTier | AfterOutput

  function TierOf(r: ProcessReason): Tier
  {
    match r
    case MissingProperty | MissingValue | DifferentRank | ReplaceValue | DeleteValues
      | NewClaimFromQualifier => StatementTier
    case MissingQualifierProperty | MissingQualifierValue | ReplaceQualifierValue
      | DeleteQualifierValues => QualifierTier
    case MergedReference | MissingReference => ReferenceTier
    case PostOutput => AfterOutput
  }

  /** Does the reason record that something new was added (rather than changed)? */
  predicate IsAddition(r: ProcessReason)
  {
    match r
    case MissingProperty | MissingValue | NewClaimFromQualifier
      | MissingQualifierProperty | MissingQualifierValue | MissingReference => true
    case _ => false
  }

  /** The classifiers agree with the tier description, in both directions. */
  lemma ClassifiersMatchTiers(r: ProcessReason)
    ensures r.ClaimModified() <==> TierOf(r) == StatementTier
    ensures r.QualifierModified() <==> TierOf(r) == QualifierTier
    ensures r.ReferenceModified() <==> TierOf(r) == ReferenceTier
    ensures r.NewClaimWasAdded() <==> TierOf(r) == StatementTier && IsAddition(r)
    ensures r.NewQualifierWasAdded() <==> TierOf(r) == QualifierTier && IsAddition(r)
  {
  }

  /** Each reason other than the post-output marker is claimed by exactly one of
      the three "modified" classifiers; the marker by none. */
  lemma ClassifiersPartition(r: ProcessReason)
    ensures r == PostOutput <==> !r.ClaimModified() && !r.QualifierModified() && !r.ReferenceModified()
    ensures !(r.ClaimModified() && r.QualifierModified())
    ensures !(r.ClaimModified() && r.ReferenceModified())
    ensures !(r.QualifierModified() && r.ReferenceModified())
  {
  }

  /** The post-output marker satisfies none of the five classifiers. */
  lemma PostOutputUnclassified()
    ensures !PostOutput.NewClaimWasAdded() && !PostOutput.ClaimModified()
    ensures !PostOutput.NewQualifierWasAdded() && !PostOutput.QualifierModified()
    ensures !PostOutput.ReferenceModified()
  {
  }
}
