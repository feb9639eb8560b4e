/** What `PropertyAdderBot.process` (wikidata_bot_framework/__init__.py) decides to
    do with one desired statement, one desired qualifier and one desired reference,
    as functions of the state it reads; the engine carries the decisions out. */
module Decisions {
  import opened Collections
  import opened Constants
  import opened Wikibase
  import opened ProcessReasons
  import opened DataClasses
  import opened Utils
  import opened Policy

  // ---------------------------------------------------------------------------
  // Scanning a list of existing values

  /** Where a scan of existing values stops: at a value equal to the wanted one, at
      the value to overwrite, or at the end of the list. */
  datatype Scan = Matched(index: nat) | Conflicting(index: nat) | Exhausted

  /** The first position holding `want`. */
  function FirstMatch(ts: seq<Value>, want: Value): (r: Option<nat>)
    ensures r.Some? ==> r.value < |ts| && ts[r.value] == want
    ensures r.Some? ==> forall j :: 0 <= j < r.value ==> ts[j] != want
    ensures r.None? <==> forall j :: 0 <= j < |ts| ==> ts[j] != want
  {
    if ts == [] then None
    else if ts[0] == want then Some(0)
    else match FirstMatch(ts[1..], want)
      case None =>
        assert forall j :: 1 <= j < |ts| ==> ts[j] == ts[1..][j - 1];
        None
      case Some(i) =>
        assert forall j :: 1 <= j < i + 1 ==> ts[j] == ts[1..][j - 1];
        Some(i + 1)
  }

  /** The loops at `__init__.py:423-445` and `__init__.py:565-571`: each existing value is compared with the
      wanted one in turn; an equal value stops the scan, and so does the first
      unequal one when overwriting is allowed. */
  function ScanStop(ts: seq<Value>, want: Value, replace: bool): (r: Scan)
    ensures r.Matched? ==> r.index < |ts| && ts[r.index] == want
    ensures r.Matched? ==> forall j :: 0 <= j < r.index ==> ts[j] != want
    ensures r.Conflicting? ==> replace && r.index == 0 && |ts| > 0 && ts[0] != want
    ensures r.Exhausted? <==> (!replace || |ts| == 0) && forall j :: 0 <= j < |ts| ==> ts[j] != want
  {
    if replace && |ts| > 0 then
      if ts[0] == want then Matched(0) else Conflicting(0)
    else match FirstMatch(ts, want)
      case Some(i) => Matched(i)
      case None => Exhausted
  }

  /** The scan as `process` writes it: a loop over the copied list that stops at
      the first value that is equal, or at the first one when overwriting is allowed. */
  method ScanExisting(ts: seq<Value>, want: Value, replace: bool) returns (r: Scan)
    ensures r == ScanStop(ts, want, replace)
  {
    var i := 0;
    while i < |ts|
      invariant 0 <= i <= |ts|
      invariant forall j :: 0 <= j < i ==> ts[j] != want
      invariant i > 0 ==> !replace
    {
      if ts[i] == want {
        return Matched(i);
      }
      if replace {
        return Conflicting(i);
      }
      i := i + 1;
    }
    return Exhausted;
  }

  /** Outcome of the language check at `__init__.py:498-512`. */
  datatype LanguageScan = NoConflict | Conflict | NotMonolingual

  /** An existing monolingual text in the wanted language but with other text. */
  predicate ConflictingLanguage(t: Value, want: Value)
  {
    t.Monolingual? && want.Monolingual? && t.language == want.language && t != want
  }

  /** The language check: reading `.language` of a wanted value that is not a
      monolingual text fails at the first monolingual existing value. */
  function LanguageCheck(ts: seq<Value>, want: Value): (r: LanguageScan)
    ensures r == NotMonolingual <==> !want.Monolingual? && exists i :: 0 <= i < |ts| && ts[i].Monolingual?
    ensures r == Conflict <==> exists i :: 0 <= i < |ts| && ConflictingLanguage(ts[i], want)
  {
    if ts == [] then NoConflict
    else
      assert forall i :: 1 <= i < |ts| ==> ts[i] == ts[1..][i - 1];
      if ts[0].Monolingual? then
        if !want.Monolingual? then NotMonolingual
        else if ts[0].language == want.language && ts[0] != want then Conflict
        else LanguageCheck(ts[1..], want)
      else LanguageCheck(ts[1..], want)
  }

  /** The language check as `process` writes it, a loop that breaks at the first conflict. */
  method FindLanguageConflict(ts: seq<Value>, want: Value) returns (r: LanguageScan)
    ensures r == LanguageCheck(ts, want)
  {
    var i := 0;
    while i < |ts|
      invariant 0 <= i <= |ts|
      invariant LanguageCheck(ts, want) == LanguageCheck(ts[i..], want)
    {
      assert ts[i..][1..] == ts[i + 1..];
      if ts[i].Monolingual? {
        if !want.Monolingual? {
          return NotMonolingual;
        }
        if ts[i].language == want.language && ts[i] != want {
          return Conflict;
        }
      }
      i := i + 1;
    }
    return NoConflict;
  }

  // ---------------------------------------------------------------------------
  // Statement tier (`__init__.py:408-542`)

  /** The policy flags of an `ExtraProperty`. */
  datatype PropertyFlags = PropertyFlags(
    skipIfConflictingExists: bool,
    replaceIfConflictingExists: bool,
    deleteOtherIfReplacing: bool,
    skipIfConflictingLanguageExists: bool,
    referenceOnly: bool)

  function FlagsOf(p: ExtraProperty): PropertyFlags
  {
    PropertyFlags(p.skipIfConflictingExists, p.replaceIfConflictingExists, p.deleteOtherIfReplacing,
                  p.skipIfConflictingLanguageExists, p.referenceOnly)
  }

  /** What the engine reads of an existing statement. */
  datatype StatementView = StatementView(target: Value, rank: Rank)

  /** The entity's statements for the property: none at all, or a list. */
  datatype Existing = Absent | Present(views: seq<StatementView>)

  /** The target of each element, in order: the values the scans compare. */
  function Targets<T>(xs: seq<T>, target: T -> Value): (ts: seq<Value>)
    ensures |ts| == |xs| && forall i :: 0 <= i < |xs| ==> ts[i] == target(xs[i])
  {
    if xs == [] then [] else [target(xs[0])] + Targets(xs[1..], target)
  }

  function ViewTarget(v: StatementView): Value
  {
    v.target
  }

  /** What happens to one desired statement. */
  datatype StatementAction =
    | SkipProperty                                          // `continue`: its qualifiers and references are skipped too
    | AddMissingProperty                                    // no statement for the property yet: add it
    | Adopt(index: nat, copyRank: bool)                     // an equal statement becomes the working claim
    | Replace(index: nat, copyRank: bool, deleteOthers: bool) // overwrite an unequal statement
    | AddParallel(twice: bool)                              // add it beside the unequal ones
    | LanguageError                                         // the language check failed

  /** The decision of `__init__.py:408-542` for a desired claim of property `claimId` with
      target `want` and rank `wantRank`. */
  function StatementDecision(cfg: Config, flags: PropertyFlags, claimId: PropId, want: Value, wantRank: Rank,
                             existing: Existing): (a: StatementAction)
    ensures (a.Adopt? || a.Replace?) ==> existing.Present? && a.index < |existing.views|
  {
    var whitelisted := WhitelistedClaim(cfg, claimId);
    var addable := CanAddMainProperty(flags.referenceOnly) && whitelisted;
    match existing
    case Absent => if addable then AddMissingProperty else SkipProperty
    case Present(views) =>
      var ts := Targets(views, ViewTarget);
      match ScanStop(ts, want, flags.replaceIfConflictingExists && whitelisted)
      case Matched(i) =>
        Adopt(i, wantRank != views[i].rank && (whitelisted || cfg.copyRanksForNonwhitelistedMainProperties))
      case Conflicting(i) =>
        Replace(i, wantRank != views[i].rank, |views| > 1 && flags.deleteOtherIfReplacing)
      case Exhausted => UnmatchedAction(cfg, flags, claimId, want, ts)
  }

  /** `__init__.py:495-542`: no existing statement was equal and none was overwritten. */
  function UnmatchedAction(cfg: Config, flags: PropertyFlags, claimId: PropId, want: Value, ts: seq<Value>): (a: StatementAction)
    ensures a.SkipProperty? || a.LanguageError? || a.AddParallel?
  {
    var addable := CanAddMainProperty(flags.referenceOnly) && WhitelistedClaim(cfg, claimId);
    if flags.skipIfConflictingLanguageExists then
      match LanguageCheck(ts, want)
      case Conflict => SkipProperty
      case NotMonolingual => LanguageError
      case NoConflict => if addable then AddParallel(true) else SkipProperty
    else if flags.skipIfConflictingExists then SkipProperty
    else if addable then AddParallel(false)
    else SkipProperty
  }

  /** The reasons reported to the processed hook, in order. */
  function StatementReasons(a: StatementAction): seq<ProcessReason>
  {
    match a
    case AddMissingProperty => [MissingProperty]
    case Adopt(_, copyRank) => if copyRank then [DifferentRank] else []
    case Replace(_, copyRank, deleteOthers) =>
      (if copyRank then [DifferentRank] else []) + [ReplaceValue] + (if deleteOthers then [DeleteValues] else [])
    case AddParallel(twice) => if twice then [MissingValue, MissingValue] else [MissingValue]
    case _ => []
  }

  /** Without statements for the property, the claim is added (and `missing_property`
      reported) exactly when it may be added and is whitelisted; otherwise the whole
      desired property is skipped. */
  lemma AbsentPropertyDecision(cfg: Config, flags: PropertyFlags, claimId: PropId, want: Value, wantRank: Rank)
    ensures var a := StatementDecision(cfg, flags, claimId, want, wantRank, Absent);
      && (a == AddMissingProperty <==> !flags.referenceOnly && WhitelistedClaim(cfg, claimId))
      && (a != AddMissingProperty ==> a == SkipProperty)
      && StatementReasons(a) == (if a == AddMissingProperty then [MissingProperty] else [])
  {
  }

  /** An equal statement is adopted: the first equal one, and none is added; its rank
      is copied only when the ranks differ and the claim is whitelisted or rank copying
      for non-whitelisted properties is on. Without overwriting, an equal statement
      anywhere in the list is found. */
  lemma AdoptFirstEqual(cfg: Config, flags: PropertyFlags, claimId: PropId, want: Value, wantRank: Rank,
                        views: seq<StatementView>, i: nat)
    requires i < |views| && views[i].target == want
    requires forall j :: 0 <= j < i ==> views[j].target != want
    requires !(flags.replaceIfConflictingExists && WhitelistedClaim(cfg, claimId)) || i == 0
    ensures StatementDecision(cfg, flags, claimId, want, wantRank, Present(views)) ==
      Adopt(i, wantRank != views[i].rank && (WhitelistedClaim(cfg, claimId) || cfg.copyRanksForNonwhitelistedMainProperties))
  {
    var ts := Targets(views, ViewTarget);
    var s := ScanStop(ts, want, flags.replaceIfConflictingExists && WhitelistedClaim(cfg, claimId));
    assert ts[i] == want;
    assert s.Matched? && s.index == i;
  }

  /** Overwriting hits the first statement when it is unequal: its target and rank
      become the desired ones, `replace_value` follows any `different_rank`, and
      `delete_values` comes last, only when there were several statements. */
  lemma ReplaceHitsFirst(cfg: Config, flags: PropertyFlags, claimId: PropId, want: Value, wantRank: Rank,
                         views: seq<StatementView>)
    requires flags.replaceIfConflictingExists && WhitelistedClaim(cfg, claimId)
    requires |views| > 0 && views[0].target != want
    ensures var a := StatementDecision(cfg, flags, claimId, want, wantRank, Present(views));
      && a == Replace(0, wantRank != views[0].rank, |views| > 1 && flags.deleteOtherIfReplacing)
      && ReplaceValue in StatementReasons(a)
      && StatementReasons(a)[|StatementReasons(a)| - 1] == (if a.deleteOthers then DeleteValues else ReplaceValue)
  {
    var ts := Targets(views, ViewTarget);
    assert ts[0] == views[0].target;
  }

  /** Every replacement is of the first statement, and only for a whitelisted claim
      that asked for it. */
  lemma ReplacementOnlyAtFirst(cfg: Config, flags: PropertyFlags, claimId: PropId, want: Value, wantRank: Rank,
                               existing: Existing)
    requires StatementDecision(cfg, flags, claimId, want, wantRank, existing).Replace?
    ensures var a := StatementDecision(cfg, flags, claimId, want, wantRank, existing);
      && a.index == 0 && flags.replaceIfConflictingExists && WhitelistedClaim(cfg, claimId)
      && existing.views[0].target != want
  {
    var ts := Targets(existing.views, ViewTarget);
    assert ts[0] == existing.views[0].target;
  }

  /** With no equal statement and no overwriting, the skip flag skips; otherwise an
      addable, whitelisted claim is added beside the others, once. */
  lemma NoMatchFallthrough(cfg: Config, flags: PropertyFlags, claimId: PropId, want: Value, wantRank: Rank,
                           views: seq<StatementView>)
    requires forall j :: 0 <= j < |views| ==> views[j].target != want
    requires !(flags.replaceIfConflictingExists && WhitelistedClaim(cfg, claimId)) || |views| == 0
    requires !flags.skipIfConflictingLanguageExists
    ensures var a := StatementDecision(cfg, flags, claimId, want, wantRank, Present(views));
      && (flags.skipIfConflictingExists ==> a == SkipProperty)
      && (!flags.skipIfConflictingExists ==>
            a == if !flags.referenceOnly && WhitelistedClaim(cfg, claimId) then AddParallel(false) else SkipProperty)
  {
    var ts := Targets(views, ViewTarget);
    assert forall j :: 0 <= j < |ts| ==> ts[j] != want;
  }

  /** The language path without a conflict adds the claim and reports `missing_value`,
      then falls through and adds and reports it a second time. */
  lemma LanguagePathAddsTwice(cfg: Config, flags: PropertyFlags, claimId: PropId, want: Value, wantRank: Rank,
                              views: seq<StatementView>)
    requires forall j :: 0 <= j < |views| ==> views[j].target != want
    requires !(flags.replaceIfConflictingExists && WhitelistedClaim(cfg, claimId)) || |views| == 0
    requires flags.skipIfConflictingLanguageExists && !flags.referenceOnly && WhitelistedClaim(cfg, claimId)
    requires LanguageCheck(Targets(views, ViewTarget), want) == NoConflict
    ensures StatementDecision(cfg, flags, claimId, want, wantRank, Present(views)) == AddParallel(true)
    ensures StatementReasons(AddParallel(true)) == [MissingValue, MissingValue]
  {
    var ts := Targets(views, ViewTarget);
    assert forall j :: 0 <= j < |ts| ==> ts[j] != want;
  }

  /** A claim that is not whitelisted is never added, nor any statement overwritten, and
      an adopted statement's rank is copied only when rank copying is on. */
  lemma WhitelistGate(cfg: Config, flags: PropertyFlags, claimId: PropId, want: Value, wantRank: Rank,
                      existing: Existing)
    requires !WhitelistedClaim(cfg, claimId)
    ensures var a := StatementDecision(cfg, flags, claimId, want, wantRank, existing);
      && !a.AddMissingProperty? && !a.AddParallel? && !a.Replace?
      && (a.Adopt? && a.copyRank ==> cfg.copyRanksForNonwhitelistedMainProperties)
  {
  }

  /** A reference-only property never adds a statement. */
  lemma ReferenceOnlyNeverAdds(cfg: Config, flags: PropertyFlags, claimId: PropId, want: Value, wantRank: Rank,
                               existing: Existing)
    requires flags.referenceOnly
    ensures var a := StatementDecision(cfg, flags, claimId, want, wantRank, existing);
      !a.AddMissingProperty? && !a.AddParallel?
  {
  }

  /** A statement-tier action reports something exactly when it changes something. */
  lemma StatementReasonsIffChange(a: StatementAction)
    ensures StatementReasons(a) == [] <==> a.SkipProperty? || a.LanguageError? || (a.Adopt? && !a.copyRank)
    ensures forall r :: r in StatementReasons(a) ==> r.ClaimModified()
  {
  }

  // ---------------------------------------------------------------------------
  // Qualifier tier (`__init__.py:543-660`)

  /** What happens to one desired qualifier. */
  datatype QualifierAction =
    | AttachMissing                                  // the property has no qualifier yet: attach it
    | KeepExisting                                   // an equal qualifier exists
    | ReplaceQualifier(index: nat, collapse: bool)   // overwrite an unequal qualifier
    | SkipQualifier                                  // `continue`
    | MakeNewClaim                                   // re-add the original claim and attach it there
    | AppendValue                                    // attach beside the unequal ones
    | MissingKey                                     // `qualifiers[key]` on a missing key

  function SnakTarget(c: Snak): Value
  {
    c.target
  }

  /** The decision of `__init__.py:549-660` for desired qualifier `q` grouped under `key`,
      given the working claim's qualifiers. */
  function QualifierDecision(cfg: Config, mainWhitelisted: bool, canAdd: bool, key: PropId, q: ExtraQualifier,
                             quals: map<PropId, seq<Snak>>): (a: QualifierAction)
    ensures a.ReplaceQualifier? ==> key in quals && a.index < |quals[key]|
  {
    var permitted := mainWhitelisted || WhitelistedQualifier(cfg, q.claim.id);
    var cur := Lookup(quals, key);
    if cur == [] && permitted then AttachMissing
    else if key !in quals then MissingKey
    else match ScanStop(Targets(cur, SnakTarget), q.claim.target, q.replaceIfConflictingExists && permitted)
      case Matched(_) => KeepExisting
      case Conflicting(j) => ReplaceQualifier(j, |cur| > 1 && q.deleteOtherIfReplacing)
      case Exhausted => UnmatchedQualifierAction(mainWhitelisted, canAdd, q)
  }

  /** `__init__.py:626-660`: no existing qualifier was equal and none was overwritten. */
  function UnmatchedQualifierAction(mainWhitelisted: bool, canAdd: bool, q: ExtraQualifier): (a: QualifierAction)
    ensures a.SkipQualifier? || a.MakeNewClaim? || a.AppendValue?
  {
    if q.skipIfConflictingExists then SkipQualifier
    else if q.makeNewIfConflicting && mainWhitelisted then
      if canAdd then MakeNewClaim else SkipQualifier
    else AppendValue
  }

  function QualifierReasons(a: QualifierAction): (rs: seq<ProcessReason>)
    ensures forall r :: r in rs ==> r.QualifierModified() || r == NewClaimFromQualifier
    ensures |rs| <= 2
  {
    match a
    case AttachMissing => [MissingQualifierProperty]
    case ReplaceQualifier(_, collapse) => [ReplaceQualifierValue] + (if collapse then [DeleteQualifierValues] else [])
    case MakeNewClaim => [NewClaimFromQualifier]
    case AppendValue => [MissingQualifierValue]
    case _ => []
  }

  /** A qualifier is attached as missing exactly when the working claim has none
      under its group's key and it is permitted; without such a key and without
      permission, the lookup fails. */
  lemma QualifierAttachOrMissingKey(cfg: Config, wl: bool, canAdd: bool, key: PropId, q: ExtraQualifier,
                                    quals: map<PropId, seq<Snak>>)
    ensures var a := QualifierDecision(cfg, wl, canAdd, key, q, quals);
      var permitted := wl || WhitelistedQualifier(cfg, q.claim.id);
      && (a == AttachMissing <==> Lookup(quals, key) == [] && permitted)
      && (a == MissingKey <==> key !in quals && !permitted)
  {
  }

  /** An equal existing qualifier means no change and no report. */
  lemma EqualQualifierKept(cfg: Config, wl: bool, canAdd: bool, key: PropId, q: ExtraQualifier,
                           quals: map<PropId, seq<Snak>>, i: nat)
    requires key in quals && i < |quals[key]| && quals[key][i].target == q.claim.target
    requires forall j :: 0 <= j < i ==> quals[key][j].target != q.claim.target
    requires !(q.replaceIfConflictingExists && (wl || WhitelistedQualifier(cfg, q.claim.id))) || i == 0
    ensures QualifierDecision(cfg, wl, canAdd, key, q, quals) == KeepExisting
    ensures QualifierReasons(KeepExisting) == []
  {
    var ts := Targets(quals[key], SnakTarget);
    assert ts[i] == q.claim.target;
  }

  /** Overwriting a qualifier hits the first one under the key, only when it is unequal
      and overwriting is asked for and permitted; `delete_qualifier_values` follows
      `replace_qualifier_value` exactly when the list is collapsed. */
  lemma QualifierReplaceFirst(cfg: Config, wl: bool, canAdd: bool, key: PropId, q: ExtraQualifier,
                              quals: map<PropId, seq<Snak>>)
    requires QualifierDecision(cfg, wl, canAdd, key, q, quals).ReplaceQualifier?
    ensures var a := QualifierDecision(cfg, wl, canAdd, key, q, quals);
      && a.index == 0 && quals[key][0].target != q.claim.target
      && q.replaceIfConflictingExists && (wl || WhitelistedQualifier(cfg, q.claim.id))
      && (a.collapse <==> |quals[key]| > 1 && q.deleteOtherIfReplacing)
      && QualifierReasons(a) == [ReplaceQualifierValue] + (if a.collapse then [DeleteQualifierValues] else [])
  {
    var ts := Targets(quals[key], SnakTarget);
    assert ts[0] == quals[key][0].target;
  }

  /** A new claim is made only for a whitelisted, addable property whose qualifier asks
      for it and finds no equal value, and then `new_claim_from_qualifier` is reported
      instead of `missing_qualifier_value`. */
  lemma MakeNewGate(cfg: Config, wl: bool, canAdd: bool, key: PropId, q: ExtraQualifier,
                    quals: map<PropId, seq<Snak>>)
    requires QualifierDecision(cfg, wl, canAdd, key, q, quals) == MakeNewClaim
    ensures wl && canAdd && q.makeNewIfConflicting && !q.skipIfConflictingExists
    ensures key in quals && forall j :: 0 <= j < |quals[key]| ==> quals[key][j].target != q.claim.target
    ensures QualifierReasons(MakeNewClaim) == [NewClaimFromQualifier]
  {
    var ts := Targets(quals[key], SnakTarget);
    assert forall j :: 0 <= j < |ts| ==> ts[j] == quals[key][j].target;
  }

  /** The final append has no whitelist gate: a qualifier that is neither whitelisted
      itself nor on a whitelisted claim is still appended beside unequal values. */
  lemma AppendIsUngated(cfg: Config, canAdd: bool, key: PropId, q: ExtraQualifier, quals: map<PropId, seq<Snak>>)
    requires !WhitelistedQualifier(cfg, q.claim.id)
    requires key in quals && quals[key] != []
    requires forall j :: 0 <= j < |quals[key]| ==> quals[key][j].target != q.claim.target
    requires !q.skipIfConflictingExists
    ensures QualifierDecision(cfg, false, canAdd, key, q, quals) == AppendValue
  {
    var ts := Targets(quals[key], SnakTarget);
    assert forall j :: 0 <= j < |ts| ==> ts[j] != q.claim.target;
  }

  /** A make-new split does not settle the property. The desired claim equals the
      statement at `i`, the first equal one, which is adopted; its qualifiers under
      `key` all differ from a make-new qualifier, so the original claim is appended
      as a new statement (`added`) after it, and the adopted statement's qualifiers are left as
      they were. On the next pass the same statement is adopted and the same split
      follows. Nothing but the hook ends the `while re_cycle` loop, so a hook that
      asks for another pass whenever a new claim was added keeps it running, adding
      one more statement each pass. */
  lemma MakeNewRepeats(cfg: Config, flags: PropertyFlags, claimId: PropId, want: Value, wantRank: Rank,
                       views: seq<StatementView>, i: nat, key: PropId, q: ExtraQualifier,
                       quals: map<PropId, seq<Snak>>, added: StatementView)
    requires i < |views| && views[i].target == want
    requires forall j :: 0 <= j < i ==> views[j].target != want
    requires !(flags.replaceIfConflictingExists && WhitelistedClaim(cfg, claimId)) || i == 0
    requires !flags.referenceOnly && WhitelistedClaim(cfg, claimId)
    requires q.makeNewIfConflicting && !q.skipIfConflictingExists && !q.replaceIfConflictingExists
    requires key in quals && quals[key] != []
    requires forall j :: 0 <= j < |quals[key]| ==> quals[key][j].target != q.claim.target
    ensures var a := StatementDecision(cfg, flags, claimId, want, wantRank, Present(views));
      a.Adopt? && a.index == i
    ensures QualifierDecision(cfg, true, true, key, q, quals) == MakeNewClaim
    ensures QualifierReasons(MakeNewClaim) == [NewClaimFromQualifier] && NewClaimFromQualifier.NewClaimWasAdded()
    ensures StatementDecision(cfg, flags, claimId, want, wantRank, Present(views + [added]))
      == StatementDecision(cfg, flags, claimId, want, wantRank, Present(views))
  {
    AdoptFirstEqual(cfg, flags, claimId, want, wantRank, views, i);
    var next := views + [added];
    assert next[i] == views[i];
    AdoptFirstEqual(cfg, flags, claimId, want, wantRank, next, i);
    var ts := Targets(quals[key], SnakTarget);
    assert forall j :: 0 <= j < |ts| ==> ts[j] != q.claim.target;
    assert ScanStop(ts, q.claim.target, false).Exhausted?;
  }

  // ---------------------------------------------------------------------------
  // Reference tier (`__init__.py:661-703`)

  /** The first existing reference group the desired reference is compatible with. */
  function FirstCompatible(reference: ReferenceSpec, groups: seq<RefGroup>): (r: Option<nat>)
    ensures r.Some? ==> r.value < |groups| && IsCompatibleReference(reference, groups[r.value])
    ensures r.Some? ==> forall j :: 0 <= j < r.value ==> !IsCompatibleReference(reference, groups[j])
    ensures r.None? <==> forall j :: 0 <= j < |groups| ==> !IsCompatibleReference(reference, groups[j])
  {
    if groups == [] then None
    else if IsCompatibleReference(reference, groups[0]) then Some(0)
    else match FirstCompatible(reference, groups[1..])
      case None =>
        assert forall j :: 1 <= j < |groups| ==> groups[j] == groups[1..][j - 1];
        None
      case Some(i) =>
        assert forall j :: 1 <= j < i + 1 ==> groups[j] == groups[1..][j - 1];
        Some(i + 1)
  }

  /** The loop at `__init__.py:663-687`, which stops at the first compatible group. */
  method FindCompatible(reference: ReferenceSpec, groups: seq<RefGroup>) returns (r: Option<nat>)
    ensures r == FirstCompatible(reference, groups)
  {
    var i := 0;
    while i < |groups|
      invariant 0 <= i <= |groups|
      invariant forall j :: 0 <= j < i ==> !IsCompatibleReference(reference, groups[j])
    {
      if IsCompatibleReference(reference, groups[i]) {
        return Some(i);
      }
      i := i + 1;
    }
    return None;
  }

  /** What happens to one desired reference. */
  datatype ReferenceAction =
    | MergeInto(index: nat, changed: bool)   // merge into the first compatible group
    | MergeRaises(index: nat)                // that group was loaded and lacks a contributed ID: `KeyError`
    | AddGroup                               // append a new reference group
    | NoReference                            // not permitted

  /** The claims a desired reference contributes, in order. */
  function ContributedClaims(reference: ReferenceSpec): seq<Snak>
  {
    ValuesOf(reference.newReferenceProps)
  }

  /** The reference group `add_reference_locally` builds from the desired reference. */
  function NewGroup(reference: ReferenceSpec): RefGroup
  {
    Grouped(ContributedClaims(reference))
  }

  /** `existing_reference` after `merge_reference_groups` with the desired reference's claims. */
  function MergedInto(reference: ReferenceSpec, group: RefGroup): RefGroup
  {
    MergedGroup(group, ContributedClaims(reference))
  }

  /** Does the desired reference contribute a property ID the group lacks? */
  predicate AddsTo(reference: ReferenceSpec, group: RefGroup)
  {
    exists k :: 0 <= k < |ContributedClaims(reference)| && ContributedClaims(reference)[k].id !in group
  }

  /** The decision of `__init__.py:661-703`. `permitted` is the whitelist condition, which does
      not change during the scan; the first `loaded` groups came from the server, and
      merging a new property ID into one of them raises `KeyError` (`utils.py:38`). */
  function ReferenceDecision(reference: ReferenceSpec, permitted: bool, sources: seq<RefGroup>, loaded: nat)
    : (a: ReferenceAction)
    ensures (a.MergeInto? || a.MergeRaises?) ==> a.index < |sources|
    ensures a.MergeRaises? ==> a.index < loaded
  {
    if !permitted then NoReference
    else match FirstCompatible(reference, sources)
      case None => AddGroup
      case Some(i) =>
        if i < loaded && AddsTo(reference, sources[i]) then MergeRaises(i)
        else MergeInto(i, AddsTo(reference, sources[i]))
  }

  function ReferenceReasons(a: ReferenceAction): (rs: seq<ProcessReason>)
    ensures forall r :: r in rs ==> r.ReferenceModified()
    ensures |rs| <= 1
  {
    match a
    case MergeInto(_, changed) => if changed then [MergedReference] else []
    case AddGroup => [MissingReference]
    case NoReference => []
    case MergeRaises(_) => []
  }

  /** The reference groups after the decision is carried out: at most one group is
      touched, or exactly one group is appended. */
  function ApplyReference(reference: ReferenceSpec, a: ReferenceAction, sources: seq<RefGroup>): seq<RefGroup>
    requires a.MergeInto? ==> a.index < |sources|
  {
    match a
    case MergeInto(i, _) => sources[i := MergedInto(reference, sources[i])]
    case AddGroup => sources + [NewGroup(reference)]
    case NoReference => sources
    case MergeRaises(_) => sources
  }

  /** The outcomes of `__init__.py:661-703` for one desired reference: without permission
      nothing changes; with permission and no compatible group exactly one new group
      is appended and `missing_reference` is reported; otherwise the first compatible
      group is merged into. When that group was loaded from the server and the desired
      reference has a property ID it lacks, `KeyError` is raised, with the groups
      unchanged and nothing reported; otherwise only that group is touched, and
      `merged_reference` is reported exactly when the merge added a property. */
  lemma ReferenceOutcomes(reference: ReferenceSpec, permitted: bool, sources: seq<RefGroup>, loaded: nat)
    ensures var a := ReferenceDecision(reference, permitted, sources, loaded);
      var after := ApplyReference(reference, a, sources);
      && (!permitted ==> after == sources && ReferenceReasons(a) == [])
      && (permitted && (forall j :: 0 <= j < |sources| ==> !IsCompatibleReference(reference, sources[j])) ==>
            after == sources + [NewGroup(reference)] && ReferenceReasons(a) == [MissingReference])
      && (permitted && (exists j :: 0 <= j < |sources| && IsCompatibleReference(reference, sources[j])) ==>
            a.MergeInto? || a.MergeRaises?)
      && (a.MergeInto? || a.MergeRaises? ==>
            && permitted
            && IsCompatibleReference(reference, sources[a.index])
            && (forall j :: 0 <= j < a.index ==> !IsCompatibleReference(reference, sources[j])))
      && (a.MergeRaises? ==>
            a.index < loaded && AddsTo(reference, sources[a.index]) && after == sources && ReferenceReasons(a) == [])
      && (a.MergeInto? ==>
            && (a.index < loaded ==> !AddsTo(reference, sources[a.index]))
            && |after| == |sources|
            && (forall j :: 0 <= j < |sources| && j != a.index ==> after[j] == sources[j])
            && after[a.index] == MergedGroup(sources[a.index], ContributedClaims(reference))
            && (ReferenceReasons(a) == [MergedReference] <==>
                  exists k :: 0 <= k < |ContributedClaims(reference)| && ContributedClaims(reference)[k].id !in sources[a.index])
            && (ReferenceReasons(a) == [] <==> after == sources))
  {
    var a := ReferenceDecision(reference, permitted, sources, loaded);
    if a.MergeInto? {
      var i := a.index;
      var refs := ContributedClaims(reference);
      var after := ApplyReference(reference, a, sources);
      if a.changed {
        var k :| 0 <= k < |refs| && refs[k].id !in sources[i];
        AllIdsPresentAfterMerge(sources[i], refs);
        assert refs[k].id in after[i];
        assert after != sources;
      } else {
        MergeWhenAllPresent(sources[i], refs);
        assert sources[i := sources[i]] == sources;
      }
    }
  }

  /** A merge that adds nothing leaves the group as it was, and is not reported. */
  lemma UnchangedMergeIsSilent(reference: ReferenceSpec, permitted: bool, sources: seq<RefGroup>, loaded: nat)
    requires ReferenceDecision(reference, permitted, sources, loaded).MergeInto?
    requires !ReferenceDecision(reference, permitted, sources, loaded).changed
    ensures var a := ReferenceDecision(reference, permitted, sources, loaded);
      ApplyReference(reference, a, sources) == sources && ReferenceReasons(a) == []
  {
    var a := ReferenceDecision(reference, permitted, sources, loaded);
    var i := a.index;
    MergeWhenAllPresent(sources[i], ContributedClaims(reference));
    assert sources[i := sources[i]] == sources;
  }

  /** Compatibility only looks for claims that merging keeps: a group stays compatible
      after merging references into it. */
  lemma CompatibleAfterMerge(reference: ReferenceSpec, group: RefGroup, refs: seq<Snak>)
    requires IsCompatibleReference(reference, group)
    ensures IsCompatibleReference(reference, MergedGroup(group, refs))
  {
    var merged := MergedGroup(group, refs);
    MergedKeys(group, refs);
    if reference.urlMatchPattern.Some? && UrlProp in group
      && exists i :: 0 <= i < |group[UrlProp]| && Truthy(group[UrlProp][i].target)
           && StringOf(group[UrlProp][i].target).Some?
           && reference.urlMatchPattern.value(StringOf(group[UrlProp][i].target).value)
    {
      assert merged[UrlProp] == group[UrlProp];
    } else {
      var m := reference.matchPropertyValues;
      var i :| 0 <= i < |m| && m[i].0 in group && exists c :: c in group[m[i].0] && c.target == m[i].1.target;
      assert merged[m[i].0] == group[m[i].0];
    }
  }

  /** After a merge into group `i`, group `i` is still the first compatible one. */
  lemma FirstCompatibleAfterMerge(reference: ReferenceSpec, sources: seq<RefGroup>, i: nat)
    requires FirstCompatible(reference, sources) == Some(i)
    ensures FirstCompatible(reference, sources[i := MergedInto(reference, sources[i])]) == Some(i)
  {
    var after := sources[i := MergedInto(reference, sources[i])];
    CompatibleAfterMerge(reference, sources[i], ContributedClaims(reference));
    assert forall j :: 0 <= j < i ==> after[j] == sources[j];
    assert IsCompatibleReference(reference, after[i]);
    var r := FirstCompatible(reference, after);
    assert r.Some?;
    assert !(r.value < i);
  }

  /** Merging the same reference a second time is a no-op: the same group is found
      again, nothing is added, and nothing is reported. */
  lemma RemergeIsNoOp(reference: ReferenceSpec, sources: seq<RefGroup>, loaded: nat)
    requires ReferenceDecision(reference, true, sources, loaded).MergeInto?
    ensures var a := ReferenceDecision(reference, true, sources, loaded);
      var after := ApplyReference(reference, a, sources);
      ReferenceDecision(reference, true, after, loaded) == MergeInto(a.index, false)
      && ApplyReference(reference, ReferenceDecision(reference, true, after, loaded), after) == after
  {
    var a := ReferenceDecision(reference, true, sources, loaded);
    var i := a.index;
    var refs := ContributedClaims(reference);
    var after := ApplyReference(reference, a, sources);
    assert after == sources[i := MergedGroup(sources[i], refs)];
    FirstCompatibleAfterMerge(reference, sources, i);
    MergeIdempotent(sources[i], refs);
    assert after[i] == MergedGroup(sources[i], refs);
    assert after[i := MergedGroup(after[i], refs)] == after;
  }

  /** Whether a desired reference may be added or merged: the claim or the
      reference itself is whitelisted (`__init__.py:667-670` and `__init__.py:688-691`). */
  function ReferencePermitted(cfg: Config, claimId: PropId, reference: ReferenceSpec): bool
  {
    WhitelistedClaim(cfg, claimId) || WhitelistedReference(cfg, reference)
  }

  /** The reference groups, the reported reasons and whether `KeyError` was raised,
      after the first `n` desired references, each decided on the groups the earlier
      ones left (`__init__.py:661-703`). Once raised, the tier has stopped, and later
      references change nothing. */
  function ReferenceTrace(cfg: Config, claimId: PropId, refs: seq<ReferenceSpec>, n: nat, sources: seq<RefGroup>,
                          loaded: nat)
    : (r: (seq<RefGroup>, seq<ProcessReason>, bool))
    requires n <= |refs|
    ensures |sources| <= |r.0| <= |sources| + n && |r.1| <= n
    ensures forall x :: x in r.1 ==> x.ReferenceModified()
    decreases n, 0
  {
    if n == 0 then (sources, [], false) else ReferenceTraceStep(cfg, claimId, refs, n - 1, sources, loaded)
  }

  /** The trace after desired reference `n`, from the trace before it. */
  function ReferenceTraceStep(cfg: Config, claimId: PropId, refs: seq<ReferenceSpec>, n: nat, sources: seq<RefGroup>,
                              loaded: nat)
    : (r: (seq<RefGroup>, seq<ProcessReason>, bool))
    requires n < |refs|
    ensures |sources| <= |r.0| <= |sources| + n + 1 && |r.1| <= n + 1
    ensures forall x :: x in r.1 ==> x.ReferenceModified()
    decreases n, 1
  {
    var (groups, reasons, raised) := ReferenceTrace(cfg, claimId, refs, n, sources, loaded);
    if raised then (groups, reasons, raised)
    else
      var a := ReferenceDecision(refs[n], ReferencePermitted(cfg, claimId, refs[n]), groups, loaded);
      (ApplyReference(refs[n], a, groups), reasons + ReferenceReasons(a), a.MergeRaises?)
  }

  /** The reference groups after the first `n` desired references. */
  function ReferencesApplied(cfg: Config, claimId: PropId, refs: seq<ReferenceSpec>, n: nat, sources: seq<RefGroup>,
                             loaded: nat): seq<RefGroup>
    requires n <= |refs|
  {
    ReferenceTrace(cfg, claimId, refs, n, sources, loaded).0
  }

  /** The reasons reported for the first `n` desired references, in order. */
  function ReferencesReported(cfg: Config, claimId: PropId, refs: seq<ReferenceSpec>, n: nat, sources: seq<RefGroup>,
                              loaded: nat): seq<ProcessReason>
    requires n <= |refs|
  {
    ReferenceTrace(cfg, claimId, refs, n, sources, loaded).1
  }

  /** Whether one of the first `n` desired references raised `KeyError`. */
  function ReferencesRaised(cfg: Config, claimId: PropId, refs: seq<ReferenceSpec>, n: nat, sources: seq<RefGroup>,
                            loaded: nat): bool
    requires n <= |refs|
  {
    ReferenceTrace(cfg, claimId, refs, n, sources, loaded).2
  }

  /** What the reference tier does with desired reference `n`. */
  function ReferenceActionAt(cfg: Config, claimId: PropId, refs: seq<ReferenceSpec>, n: nat, sources: seq<RefGroup>,
                             loaded: nat): ReferenceAction
    requires n < |refs|
  {
    ReferenceDecision(refs[n], ReferencePermitted(cfg, claimId, refs[n]),
                      ReferencesApplied(cfg, claimId, refs, n, sources, loaded), loaded)
  }

  /** Until `KeyError` is raised, each desired reference acts on the groups the earlier
      ones left, its reasons follow theirs, and it raises exactly when its action does;
      after that, nothing changes. */
  lemma ReferenceTraceUnfold(cfg: Config, claimId: PropId, refs: seq<ReferenceSpec>, n: nat, sources: seq<RefGroup>,
                             loaded: nat)
    requires n < |refs|
    ensures !ReferencesRaised(cfg, claimId, refs, n, sources, loaded) ==>
      var a := ReferenceActionAt(cfg, claimId, refs, n, sources, loaded);
      && ReferencesApplied(cfg, claimId, refs, n + 1, sources, loaded)
           == ApplyReference(refs[n], a, ReferencesApplied(cfg, claimId, refs, n, sources, loaded))
      && ReferencesReported(cfg, claimId, refs, n + 1, sources, loaded)
           == ReferencesReported(cfg, claimId, refs, n, sources, loaded) + ReferenceReasons(a)
      && ReferencesRaised(cfg, claimId, refs, n + 1, sources, loaded) == a.MergeRaises?
    ensures ReferencesRaised(cfg, claimId, refs, n, sources, loaded) ==>
      ReferenceTrace(cfg, claimId, refs, n + 1, sources, loaded) == ReferenceTrace(cfg, claimId, refs, n, sources, loaded)
  {
    assert ReferenceTrace(cfg, claimId, refs, n + 1, sources, loaded) == ReferenceTraceStep(cfg, claimId, refs, n, sources, loaded);
  }

  /** Once a desired reference has raised `KeyError`, the groups, the reports and the
      error stay as they were for every later count. */
  lemma {:induction false} RaisedTraceStays(cfg: Config, claimId: PropId, refs: seq<ReferenceSpec>, n: nat, m: nat,
                                            sources: seq<RefGroup>, loaded: nat)
    requires n <= m <= |refs| && ReferencesRaised(cfg, claimId, refs, n, sources, loaded)
    ensures ReferenceTrace(cfg, claimId, refs, m, sources, loaded) == ReferenceTrace(cfg, claimId, refs, n, sources, loaded)
    decreases m - n
  {
    if n < m {
      ReferenceTraceUnfold(cfg, claimId, refs, n, sources, loaded);
      RaisedTraceStays(cfg, claimId, refs, n + 1, m, sources, loaded);
    }
  }

  /** A statement built locally has no loaded groups, so its reference tier never
      raises `KeyError`. */
  lemma {:induction false} LocalReferencesNeverRaise(cfg: Config, claimId: PropId, refs: seq<ReferenceSpec>, n: nat,
                                                     sources: seq<RefGroup>)
    requires n <= |refs|
    ensures !ReferencesRaised(cfg, claimId, refs, n, sources, 0)
  {
    if n > 0 {
      LocalReferencesNeverRaise(cfg, claimId, refs, n - 1, sources);
      ReferenceTraceUnfold(cfg, claimId, refs, n - 1, sources, 0);
      assert !ReferenceActionAt(cfg, claimId, refs, n - 1, sources, 0).MergeRaises?;
    }
  }
}
