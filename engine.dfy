/** `PropertyAdderBot.process` (wikidata_bot_framework/__init__.py:389-736): the
    engine that reconciles an entity's statements with the desired output, in
    three tiers per desired property, repeated while a hook asks for another pass,
    followed by the bounded retry of the edit. */
module Engine {
  import opened Collections
  import opened Constants
  import opened Wikibase
  import opened ProcessReasons
  import opened DataClasses
  import opened Utils
  import opened Transformers
  import opened Policy
  import opened Decisions

  /** What the engine reads of a list of existing statements. */
  function ViewsOf(cs: seq<Claim>): (vs: seq<StatementView>)
    reads cs
    ensures |vs| == |cs| && forall i :: 0 <= i < |cs| ==> vs[i] == StatementView(cs[i].target, cs[i].rank)
  {
    if cs == [] then [] else [StatementView(cs[0].target, cs[0].rank)] + ViewsOf(cs[1..])
  }

  /** The entity's statements for property `pid`, as the statement tier sees them. */
  ghost function ExistingOf(m: map<PropId, seq<Claim>>, pid: PropId): (e: Existing)
    reads ClaimSet(m)
    ensures e.Present? <==> pid in m
    ensures e.Present? ==> |e.views| == |m[pid]|
  {
    if pid in m then
      assert forall c :: c in m[pid] ==> c in ClaimSet(m);
      Present(ViewsOf(m[pid]))
    else Absent
  }

  /** Does de-archiving the target fail: `strptime` rejects its archive timestamp? */
  predicate ArchiveFails(t: Value)
  {
    ArchiveMatch(t).Some? && !CapturedParses(TextOf(t).value, ArchiveMatch(t).value)
  }

  /** The exceptions `process` lets escape. */
  datatype Error =
    | ApiError        // the fourth failed `editEntity`
    | KeyError        // `new_claim.qualifiers[qualifier_prop]` on a missing key
    | ValueError      // an archive timestamp that is not a date
    | AttributeError  // `.language` of a target that is not a monolingual text

  datatype Outcome = Finished(acted: bool) | Raised(error: Error)

  /** Do two qualifier dictionaries have the same keys and list lengths, in order? */
  predicate SameShape(a: Entries<PropId, seq<ExtraQualifier>>, b: Entries<PropId, seq<ExtraQualifier>>)
  {
    |a| == |b| && forall i :: 0 <= i < |a| ==> a[i].0 == b[i].0 && |a[i].1| == |b[i].1|
  }

  /** The desired properties of an output. */
  function PropsOf(output: Entries<PropId, seq<ExtraProperty>>): set<ExtraProperty>
  {
    set i, j | 0 <= i < |output| && 0 <= j < |output[i].1| :: output[i].1[j]
  }

  /** Their working claims. */
  function ClaimsOf(output: Entries<PropId, seq<ExtraProperty>>): set<Claim>
    reads PropsOf(output)
  {
    set p | p in PropsOf(output) :: p.claim
  }

  /** The bot: its configuration, and `processed_hook` as an oracle. The hook's
      answer to its `k`-th call (from 0) is `answers[k]`, and `false` once the
      answers run out; every call is recorded in `log`. */
  class Bot {
    const config: Config
    const answers: seq<bool>
    var log: seq<ProcessReason>

    constructor (config: Config, answers: seq<bool>)
      ensures this.config == config && this.answers == answers && log == []
    {
      this.config := config;
      this.answers := answers;
      log := [];
    }

    /** The hook's answer to call `k`. */
    predicate Answer(k: nat)
    {
      k < |answers| && answers[k]
    }

    /** Did some call from `a` up to (not including) `b` ask for another pass? */
    ghost predicate Answered(a: nat, b: nat)
    {
      exists k: nat :: a <= k < b && Answer(k)
    }

    /** Hook calls still able to ask for another pass once `n` hooks have been called. */
    function RemainingAt(n: nat): nat
    {
      if n <= |answers| then |answers| - n else 0
    }

    lemma AnsweredSplit(a: nat, b: nat, c: nat)
      requires a <= b <= c
      ensures Answered(a, c) <==> Answered(a, b) || Answered(b, c)
    {
      if Answered(a, c) {
        var k: nat :| a <= k < c && Answer(k);
        if k < b { assert Answered(a, b); } else { assert Answered(b, c); }
      }
    }

    /** `processed_hook(item, reason, ...)`. */
    method ProcessedHook(reason: ProcessReason) returns (r: bool)
      modifies this
      ensures log == old(log) + [reason]
      ensures r == Answer(|old(log)|)
    {
      r := |log| < |answers| && answers[|log|];
      log := log + [reason];
    }

    /** `re_cycle |= self.processed_hook(...)` */
    method Report(reason: ProcessReason, reCycle: bool) returns (reCycle': bool)
      modifies this
      ensures log == old(log) + [reason]
      ensures reCycle' == (reCycle || Answered(|old(log)|, |log|))
    {
      var r := ProcessedHook(reason);
      assert r ==> Answer(|old(log)|);
      reCycle' := reCycle || r;
    }

    /** `__init__.py:408-542`: the statement tier for one desired property. */
    method StatementTier(pid: PropId, item: Entity, prop: ExtraProperty, ghost pool: set<Claim>, reCycle: bool)
      returns (a: StatementAction, reCycle': bool)
      requires ClaimSet(item.claims) <= pool && prop.claim in pool
      modifies this, item, prop, pool
      ensures ClaimSet(item.claims) <= pool && prop.claim in pool
      ensures a == StatementDecision(config, FlagsOf(prop), old(prop.claim.id), old(prop.claim.target),
                                     old(prop.claim.rank), old(ExistingOf(item.claims, pid)))
      ensures log == old(log) + StatementReasons(a)
      ensures reCycle' == (reCycle || Answered(|old(log)|, |log|))
      ensures prop.qualifiers == old(prop.qualifiers) && prop.extraReferences == old(prop.extraReferences)
      ensures StatementApplied(pid, item, prop, pool, a)
    {
      var c := prop.claim;
      var whitelisted := WhitelistedClaim(config, c.id);
      var addable := CanAddMainProperty(prop.referenceOnly) && whitelisted;
      if pid !in item.claims {
        if addable {
          ClaimSetAppendTo(item.claims, c.id, c);
          AddClaimLocally(item, c);
          reCycle' := Report(MissingProperty, reCycle);
          a := AddMissingProperty;
        } else {
          a, reCycle' := SkipProperty, reCycle;
        }
        return;
      }
      a, reCycle' := ExistingStatementTier(pid, item, prop, pool, reCycle);
    }

    /** `__init__.py:417-542`: the item already has statements for the property. */
    method ExistingStatementTier(pid: PropId, item: Entity, prop: ExtraProperty, ghost pool: set<Claim>, reCycle: bool)
      returns (a: StatementAction, reCycle': bool)
      requires pid in item.claims
      requires ClaimSet(item.claims) <= pool && prop.claim in pool
      modifies this, item, prop, pool
      ensures ClaimSet(item.claims) <= pool && prop.claim in pool
      ensures a == StatementDecision(config, FlagsOf(prop), old(prop.claim.id), old(prop.claim.target),
                                     old(prop.claim.rank), old(ExistingOf(item.claims, pid)))
      ensures log == old(log) + StatementReasons(a)
      ensures reCycle' == (reCycle || Answered(|old(log)|, |log|))
      ensures prop.qualifiers == old(prop.qualifiers) && prop.extraReferences == old(prop.extraReferences)
      ensures StatementApplied(pid, item, prop, pool, a)
    {
      var c := prop.claim;
      var whitelisted := WhitelistedClaim(config, c.id);
      var cs := item.claims[pid];
      assert forall x :: x in cs ==> x in ClaimSet(item.claims);
      var ts := Targets(ViewsOf(cs), ViewTarget);
      var scan := ScanExisting(ts, c.target, prop.replaceIfConflictingExists && whitelisted);
      match scan
      case Matched(i) =>
        a, reCycle' := AdoptStatement(pid, item, prop, pool, i, reCycle);
      case Conflicting(i) =>
        a, reCycle' := ReplaceStatement(pid, item, prop, pool, reCycle);
      case Exhausted =>
        a, reCycle' := AddParallelStatement(pid, item, prop, pool, reCycle);
    }

    /** What a statement-tier action does to the entity, the desired property and
        the statements. */
    twostate predicate StatementApplied(pid: PropId, item: Entity, prop: ExtraProperty, pool: set<Claim>,
                                        a: StatementAction)
      reads item, prop, pool
    {
      match a
      // nothing changes when the property is skipped or the language check fails
      case SkipProperty => item.claims == old(item.claims) && prop.claim == old(prop.claim) && unchanged(pool)
      case LanguageError => item.claims == old(item.claims) && prop.claim == old(prop.claim) && unchanged(pool)
      // the desired claim is appended and stays the working claim
      case AddMissingProperty =>
        && prop.claim == old(prop.claim) && unchanged(pool)
        && item.claims == AppendTo(old(item.claims), prop.claim.id, prop.claim)
      case AddParallel(twice) =>
        && prop.claim == old(prop.claim) && unchanged(pool)
        && item.claims == if twice
                          then AppendTo(AppendTo(old(item.claims), prop.claim.id, prop.claim), prop.claim.id, prop.claim)
                          else AppendTo(old(item.claims), prop.claim.id, prop.claim)
      // the equal statement becomes the working claim, taking the desired rank when copied
      case Adopt(i, copyRank) =>
        && pid in old(item.claims) && i < |old(item.claims[pid])|
        && var e := old(item.claims[pid][i]);
        && e in pool && prop.claim == e && item.claims == old(item.claims)
        && e.rank == (if copyRank then old(prop.claim.rank) else old(e.rank))
        && e.target == old(e.target) && e.qualifiers == old(e.qualifiers) && e.sources == old(e.sources)
        && unchanged(pool - {e})
      // the statement takes the desired target (and rank), and may become the only one
      case Replace(i, copyRank, deleteOthers) =>
        && pid in old(item.claims) && i < |old(item.claims[pid])|
        && var e := old(item.claims[pid][i]);
        && e in pool && prop.claim == e
        && e.target == old(prop.claim.target)
        && e.rank == (if copyRank then old(prop.claim.rank) else old(e.rank))
        && e.qualifiers == old(e.qualifiers) && e.sources == old(e.sources)
        && item.claims == (if deleteOthers then old(item.claims)[pid := [e]] else old(item.claims))
        && unchanged(pool - {e})
    }

    /** `__init__.py:423-445`: an equal statement at `i` is adopted. */
    method AdoptStatement(pid: PropId, item: Entity, prop: ExtraProperty, ghost pool: set<Claim>, i: nat, reCycle: bool)
      returns (a: StatementAction, reCycle': bool)
      requires pid in item.claims && i < |item.claims[pid]|
      requires ClaimSet(item.claims) <= pool && prop.claim in pool
      modifies this, pool, prop
      ensures ClaimSet(item.claims) <= pool && prop.claim in pool
      ensures a == Adopt(i, old(prop.claim.rank) != old(item.claims[pid][i].rank)
                            && (WhitelistedClaim(config, old(prop.claim.id)) || config.copyRanksForNonwhitelistedMainProperties))
      ensures log == old(log) + StatementReasons(a)
      ensures reCycle' == (reCycle || Answered(|old(log)|, |log|))
      ensures prop.qualifiers == old(prop.qualifiers) && prop.extraReferences == old(prop.extraReferences)
      ensures StatementApplied(pid, item, prop, pool, a)
    {
      var c := prop.claim;
      var e := item.claims[pid][i];
      assert e in item.claims[pid];
      assert e in ClaimSet(item.claims);
      var copyRank := c.rank != e.rank && (WhitelistedClaim(config, c.id) || config.copyRanksForNonwhitelistedMainProperties);
      reCycle' := reCycle;
      if copyRank {
        e.rank := c.rank;
        reCycle' := Report(DifferentRank, reCycle');
      }
      prop.claim := e;
      a := Adopt(i, copyRank);
    }

    /** `__init__.py:447-494`: the first statement, which is not equal, is overwritten. */
    method ReplaceStatement(pid: PropId, item: Entity, prop: ExtraProperty, ghost pool: set<Claim>, reCycle: bool)
      returns (a: StatementAction, reCycle': bool)
      requires pid in item.claims && |item.claims[pid]| > 0 && item.claims[pid][0].target != prop.claim.target
      requires ClaimSet(item.claims) <= pool && prop.claim in pool
      modifies this, item, pool, prop
      ensures ClaimSet(item.claims) <= pool && prop.claim in pool
      ensures a == Replace(0, old(prop.claim.rank) != old(item.claims[pid][0].rank),
                           |old(item.claims[pid])| > 1 && prop.deleteOtherIfReplacing)
      ensures log == old(log) + StatementReasons(a)
      ensures reCycle' == (reCycle || Answered(|old(log)|, |log|))
      ensures prop.qualifiers == old(prop.qualifiers) && prop.extraReferences == old(prop.extraReferences)
      ensures StatementApplied(pid, item, prop, pool, a)
    {
      var c := prop.claim;
      var e := item.claims[pid][0];
      assert e in item.claims[pid];
      assert e in ClaimSet(item.claims);
      var target, rank := c.target, c.rank;
      e.target := target;
      var copyRank := rank != e.rank;
      reCycle' := reCycle;
      if copyRank {
        e.rank := rank;
        reCycle' := Report(DifferentRank, reCycle');
      }
      prop.claim := e;
      ghost var log1 := log;
      reCycle' := Report(ReplaceValue, reCycle');
      AnsweredSplit(|old(log)|, |log1|, |log|);
      var deleteOthers := |item.claims[pid]| > 1 && prop.deleteOtherIfReplacing;
      if deleteOthers {
        ghost var log2 := log;
        reCycle' := Report(DeleteValues, reCycle');
        AnsweredSplit(|old(log)|, |log2|, |log|);
        ClaimSetCollapse(item.claims, pid, e);
        item.claims := item.claims[pid := [e]];
      }
      a := Replace(0, copyRank, deleteOthers);
    }

    /** `__init__.py:495-542`: no statement was equal and none was overwritten. */
    method AddParallelStatement(pid: PropId, item: Entity, prop: ExtraProperty, ghost pool: set<Claim>, reCycle: bool)
      returns (a: StatementAction, reCycle': bool)
      requires pid in item.claims
      requires ClaimSet(item.claims) <= pool && prop.claim in pool
      modifies this, item
      ensures ClaimSet(item.claims) <= pool
      ensures a == UnmatchedAction(config, FlagsOf(prop), prop.claim.id, prop.claim.target,
                                   old(Targets(ViewsOf(item.claims[pid]), ViewTarget)))
      ensures log == old(log) + StatementReasons(a)
      ensures reCycle' == (reCycle || Answered(|old(log)|, |log|))
      ensures StatementApplied(pid, item, prop, pool, a)
    {
      var c := prop.claim;
      var addable := CanAddMainProperty(prop.referenceOnly) && WhitelistedClaim(config, c.id);
      var ts := Targets(ViewsOf(item.claims[pid]), ViewTarget);
      reCycle' := reCycle;
      if prop.skipIfConflictingLanguageExists {
        var language := FindLanguageConflict(ts, c.target);
        if language == NotMonolingual {
          return LanguageError, reCycle';
        }
        if language == Conflict || !addable {
          return SkipProperty, reCycle';
        }
        reCycle' := Report(MissingValue, reCycle');
        ClaimSetAppendTo(item.claims, c.id, c);
        AddClaimLocally(item, c);
        // the fall-through at `__init__.py:531` adds it again
        ClaimSetAppendTo(item.claims, c.id, c);
        AddClaimLocally(item, c);
        ghost var log1 := log;
        reCycle' := Report(MissingValue, reCycle');
        AnsweredSplit(|old(log)|, |log1|, |log|);
        a := AddParallel(true);
      } else if prop.skipIfConflictingExists || !addable {
        a := SkipProperty;
      } else {
        ClaimSetAppendTo(item.claims, c.id, c);
        AddClaimLocally(item, c);
        reCycle' := Report(MissingValue, reCycle');
        a := AddParallel(false);
      }
    }

    /** What a qualifier-tier action does. `w` is the working claim before it. */
    twostate predicate QualifierApplied(gi: nat, k: nat, item: Entity, prop: ExtraProperty, w: Claim, original: Claim,
                                        a: QualifierAction)
      requires gi < old(|prop.qualifiers|) && k < old(|prop.qualifiers[gi].1|)
      reads item, prop, w, original
    {
      var key := old(prop.qualifiers[gi].0);
      var q := old(prop.qualifiers[gi].1[k]);
      match a
      // nothing changes
      case KeepExisting => QualifierUntouched(item, prop, w, original)
      case SkipQualifier => QualifierUntouched(item, prop, w, original)
      case MissingKey => QualifierUntouched(item, prop, w, original)
      // the qualifier is attached to the working claim under its own property ID
      case AttachMissing => QualifierAttached(item, prop, w, original, q.claim)
      case AppendValue => QualifierAttached(item, prop, w, original, q.claim)
      // the first qualifier under the key takes the desired target, and may become the only one;
      // the desired qualifier now stands for it
      case ReplaceQualifier(j, collapse) =>
        && key in old(w.qualifiers) && j < |old(w.qualifiers[key])|
        && var updated := old(w.qualifiers[key][j]).(target := q.claim.target);
        && w.qualifiers == old(w.qualifiers)[key := if collapse then [updated] else old(w.qualifiers[key])[j := updated]]
        && w.target == old(w.target) && w.rank == old(w.rank) && w.sources == old(w.sources)
        && (original != w ==> unchanged(original))
        && item.claims == old(item.claims) && prop.claim == w
        && prop.qualifiers == Rebound(old(prop.qualifiers), gi, k, updated)
      // the original desired claim is added again and becomes the working claim, with the qualifier
      case MakeNewClaim =>
        && prop.claim == original && prop.qualifiers == old(prop.qualifiers)
        && item.claims == AppendTo(old(item.claims), original.id, original)
        && original.qualifiers == AppendTo(old(original.qualifiers), q.claim.id, AsQualifier(q.claim))
        && original.target == old(original.target) && original.rank == old(original.rank)
        && original.sources == old(original.sources)
        && (original != w ==> unchanged(w))
    }

    twostate predicate QualifierUntouched(item: Entity, prop: ExtraProperty, w: Claim, original: Claim)
      reads item, prop, w, original
    {
      unchanged(w, original) && item.claims == old(item.claims) && prop.claim == w && prop.qualifiers == old(prop.qualifiers)
    }

    twostate predicate QualifierAttached(item: Entity, prop: ExtraProperty, w: Claim, original: Claim, qualifier: Snak)
      reads item, prop, w, original
    {
      && w.qualifiers == AppendTo(old(w.qualifiers), qualifier.id, AsQualifier(qualifier))
      && w.target == old(w.target) && w.rank == old(w.rank) && w.sources == old(w.sources)
      && (original != w ==> unchanged(original))
      && item.claims == old(item.claims) && prop.claim == w && prop.qualifiers == old(prop.qualifiers)
    }

    /** `__init__.py:549-660` for the `k`-th desired qualifier under the `gi`-th key. */
    method QualifierStep(gi: nat, k: nat, item: Entity, prop: ExtraProperty, original: Claim, ghost pool: set<Claim>,
                         reCycle: bool)
      returns (a: QualifierAction, reCycle': bool)
      requires gi < |prop.qualifiers| && k < |prop.qualifiers[gi].1|
      requires ClaimSet(item.claims) <= pool && prop.claim in pool && original in pool
      modifies this, item, prop, prop.claim, original
      ensures ClaimSet(item.claims) <= pool && prop.claim in pool
      ensures a == QualifierDecision(config, WhitelistedClaim(config, old(prop.claim.id)), CanAddMainProperty(prop.referenceOnly),
                                     old(prop.qualifiers[gi].0), old(prop.qualifiers[gi].1[k]), old(prop.claim.qualifiers))
      ensures log == old(log) + QualifierReasons(a)
      ensures reCycle' == (reCycle || Answered(|old(log)|, |log|))
      ensures SameShape(prop.qualifiers, old(prop.qualifiers)) && prop.extraReferences == old(prop.extraReferences)
      ensures QualifierApplied(gi, k, item, prop, old(prop.claim), original, a)
    {
      var w := prop.claim;
      var key := prop.qualifiers[gi].0;
      var q := prop.qualifiers[gi].1[k];
      var mainWhitelisted := WhitelistedClaim(config, w.id);
      var permitted := mainWhitelisted || WhitelistedQualifier(config, q.claim.id);
      reCycle' := reCycle;
      if Lookup(w.qualifiers, key) == [] && permitted {
        AddQualifierLocally(w, q.claim);
        reCycle' := Report(MissingQualifierProperty, reCycle');
        return AttachMissing, reCycle';
      }
      if key !in w.qualifiers {
        return MissingKey, reCycle';
      }
      a, reCycle' := ScannedQualifierStep(gi, k, item, prop, original, pool, reCycle');
    }

    /** `__init__.py:566-660`: the key already holds qualifiers, which are scanned. */
    method ScannedQualifierStep(gi: nat, k: nat, item: Entity, prop: ExtraProperty, original: Claim, ghost pool: set<Claim>,
                                reCycle: bool)
      returns (a: QualifierAction, reCycle': bool)
      requires gi < |prop.qualifiers| && k < |prop.qualifiers[gi].1|
      requires ClaimSet(item.claims) <= pool && prop.claim in pool && original in pool
      requires prop.qualifiers[gi].0 in prop.claim.qualifiers
      requires prop.claim.qualifiers[prop.qualifiers[gi].0] == [] ==>
        !(WhitelistedClaim(config, prop.claim.id) || WhitelistedQualifier(config, prop.qualifiers[gi].1[k].claim.id))
      modifies this, item, prop, prop.claim, original
      ensures ClaimSet(item.claims) <= pool && prop.claim in pool
      ensures a == QualifierDecision(config, WhitelistedClaim(config, old(prop.claim.id)), CanAddMainProperty(prop.referenceOnly),
                                     old(prop.qualifiers[gi].0), old(prop.qualifiers[gi].1[k]), old(prop.claim.qualifiers))
      ensures log == old(log) + QualifierReasons(a)
      ensures reCycle' == (reCycle || Answered(|old(log)|, |log|))
      ensures SameShape(prop.qualifiers, old(prop.qualifiers)) && prop.extraReferences == old(prop.extraReferences)
      ensures QualifierApplied(gi, k, item, prop, old(prop.claim), original, a)
    {
      var w := prop.claim;
      var key := prop.qualifiers[gi].0;
      var q := prop.qualifiers[gi].1[k];
      var permitted := WhitelistedClaim(config, w.id) || WhitelistedQualifier(config, q.claim.id);
      reCycle' := reCycle;
      var cur := w.qualifiers[key];
      var scan := ScanExisting(Targets(cur, SnakTarget), q.claim.target, q.replaceIfConflictingExists && permitted);
      match scan
      case Matched(_) =>
        a := KeepExisting;
      case Conflicting(j) =>
        a, reCycle' := ReplaceQualifierStep(gi, k, item, prop, original, j, reCycle');
      case Exhausted =>
        a, reCycle' := UnmatchedQualifierStep(gi, k, item, prop, original, pool, reCycle');
    }

    /** `__init__.py:573-624`: the `j`-th existing qualifier under the key is overwritten. */
    method ReplaceQualifierStep(gi: nat, k: nat, item: Entity, prop: ExtraProperty, original: Claim, j: nat, reCycle: bool)
      returns (a: QualifierAction, reCycle': bool)
      requires gi < |prop.qualifiers| && k < |prop.qualifiers[gi].1|
      requires prop.qualifiers[gi].0 in prop.claim.qualifiers && j < |prop.claim.qualifiers[prop.qualifiers[gi].0]|
      modifies this, prop, prop.claim
      ensures a == ReplaceQualifier(j, |old(prop.claim.qualifiers[prop.qualifiers[gi].0])| > 1
                                       && old(prop.qualifiers[gi].1[k]).deleteOtherIfReplacing)
      ensures log == old(log) + QualifierReasons(a)
      ensures reCycle' == (reCycle || Answered(|old(log)|, |log|))
      ensures SameShape(prop.qualifiers, old(prop.qualifiers)) && prop.extraReferences == old(prop.extraReferences)
      ensures prop.claim == old(prop.claim)
      ensures QualifierApplied(gi, k, item, prop, old(prop.claim), original, a)
    {
      var w := prop.claim;
      var key := prop.qualifiers[gi].0;
      var q := prop.qualifiers[gi].1[k];
      var cur := w.qualifiers[key];
      var updated := cur[j].(target := q.claim.target);
      w.qualifiers := w.qualifiers[key := cur[j := updated]];
      reCycle' := Report(ReplaceQualifierValue, reCycle);
      prop.qualifiers := Rebound(prop.qualifiers, gi, k, updated);
      var collapse := |w.qualifiers[key]| > 1 && q.deleteOtherIfReplacing;
      if collapse {
        ghost var log1 := log;
        reCycle' := Report(DeleteQualifierValues, reCycle');
        AnsweredSplit(|old(log)|, |log1|, |log|);
        w.qualifiers := w.qualifiers[key := [updated]];
      }
      a := ReplaceQualifier(j, collapse);
    }

    /** `__init__.py:626-660`: no existing qualifier was equal and none was overwritten. */
    method UnmatchedQualifierStep(gi: nat, k: nat, item: Entity, prop: ExtraProperty, original: Claim, ghost pool: set<Claim>,
                                  reCycle: bool)
      returns (a: QualifierAction, reCycle': bool)
      requires gi < |prop.qualifiers| && k < |prop.qualifiers[gi].1|
      requires ClaimSet(item.claims) <= pool && prop.claim in pool && original in pool
      modifies this, item, prop, prop.claim, original
      ensures ClaimSet(item.claims) <= pool && prop.claim in pool
      ensures a == UnmatchedQualifierAction(WhitelistedClaim(config, old(prop.claim.id)), CanAddMainProperty(prop.referenceOnly),
                                            old(prop.qualifiers[gi].1[k]))
      ensures log == old(log) + QualifierReasons(a)
      ensures reCycle' == (reCycle || Answered(|old(log)|, |log|))
      ensures prop.qualifiers == old(prop.qualifiers) && prop.extraReferences == old(prop.extraReferences)
      ensures QualifierApplied(gi, k, item, prop, old(prop.claim), original, a)
    {
      var w := prop.claim;
      var q := prop.qualifiers[gi].1[k];
      reCycle' := reCycle;
      if q.skipIfConflictingExists {
        return SkipQualifier, reCycle';
      }
      if q.makeNewIfConflicting && WhitelistedClaim(config, w.id) {
        if !CanAddMainProperty(prop.referenceOnly) {
          return SkipQualifier, reCycle';
        }
        prop.claim := original;
        ClaimSetAppendTo(item.claims, original.id, original);
        AddClaimLocally(item, original);
        reCycle' := Report(NewClaimFromQualifier, reCycle');
        AddQualifierLocally(original, q.claim);
        return MakeNewClaim, reCycle';
      }
      AddQualifierLocally(w, q.claim);
      reCycle' := Report(MissingQualifierValue, reCycle');
      a := AppendValue;
    }

    /** `__init__.py:662-703` for one desired reference. */
    method ReferenceStep(prop: ExtraProperty, reference: ReferenceSpec, reCycle: bool)
      returns (a: ReferenceAction, reCycle': bool)
      modifies this, prop.claim
      ensures a == ReferenceDecision(reference, ReferencePermitted(config, prop.claim.id, reference), old(prop.claim.sources),
                                     prop.claim.loaded)
      ensures prop.claim.sources == ApplyReference(reference, a, old(prop.claim.sources))
      ensures prop.claim.target == old(prop.claim.target) && prop.claim.rank == old(prop.claim.rank)
      ensures prop.claim.qualifiers == old(prop.claim.qualifiers)
      ensures log == old(log) + ReferenceReasons(a)
      ensures reCycle' == (reCycle || Answered(|old(log)|, |log|))
    {
      var w := prop.claim;
      var permitted := ReferencePermitted(config, w.id, reference);
      var found := None;
      if permitted {
        found := FindCompatible(reference, w.sources);
      }
      match found
      case Some(i) =>
        a, reCycle' := MergeReference(prop, reference, i, reCycle);
      case None =>
        if permitted {
          reCycle' := Report(MissingReference, reCycle);
          AddReferenceLocally(w, ContributedClaims(reference));
          a := AddGroup;
        } else {
          a, reCycle' := NoReference, reCycle;
        }
    }

    /** `__init__.py:671-686`: the desired reference is merged into group `i`. A loaded
        group lacking one of its property IDs raises `KeyError` (`MergeRaises`). */
    method MergeReference(prop: ExtraProperty, reference: ReferenceSpec, i: nat, reCycle: bool)
      returns (a: ReferenceAction, reCycle': bool)
      requires i < |prop.claim.sources|
      modifies this, prop.claim
      ensures a == if i < prop.claim.loaded && AddsTo(reference, old(prop.claim.sources[i])) then MergeRaises(i)
                   else MergeInto(i, AddsTo(reference, old(prop.claim.sources[i])))
      ensures prop.claim.sources == ApplyReference(reference, a, old(prop.claim.sources))
      ensures prop.claim.target == old(prop.claim.target) && prop.claim.rank == old(prop.claim.rank)
      ensures prop.claim.qualifiers == old(prop.claim.qualifiers)
      ensures log == old(log) + ReferenceReasons(a)
      ensures reCycle' == (reCycle || Answered(|old(log)|, |log|))
    {
      var w := prop.claim;
      var merged, changed, raised := MergeReferenceGroups(w.sources[i], ContributedClaims(reference), i < w.loaded);
      reCycle' := reCycle;
      if raised {
        return MergeRaises(i), reCycle';
      }
      w.sources := w.sources[i := merged];
      if changed {
        reCycle' := Report(MergedReference, reCycle');
      }
      a := MergeInto(i, changed);
    }

    /** The `i`-th desired reference, on the groups the earlier ones left, none of which
        raised; the log goes on from `log0`. */
    method ReferenceTierStep(prop: ExtraProperty, refs: seq<ReferenceSpec>, i: nat, ghost sources: seq<RefGroup>,
                             ghost log0: seq<ProcessReason>, reCycle: bool)
      returns (reCycle': bool, raised: bool)
      requires i < |refs| && !ReferencesRaised(config, prop.claim.id, refs, i, sources, prop.claim.loaded)
      requires prop.claim.sources == ReferencesApplied(config, prop.claim.id, refs, i, sources, prop.claim.loaded)
      requires log == log0 + ReferencesReported(config, prop.claim.id, refs, i, sources, prop.claim.loaded)
      modifies this, prop.claim
      ensures prop.claim.sources == ReferencesApplied(config, prop.claim.id, refs, i + 1, sources, prop.claim.loaded)
      ensures prop.claim.target == old(prop.claim.target) && prop.claim.rank == old(prop.claim.rank)
      ensures prop.claim.qualifiers == old(prop.claim.qualifiers)
      ensures log == log0 + ReferencesReported(config, prop.claim.id, refs, i + 1, sources, prop.claim.loaded)
      ensures |old(log)| <= |log|
      ensures raised == ReferencesRaised(config, prop.claim.id, refs, i + 1, sources, prop.claim.loaded)
      ensures reCycle' == (reCycle || Answered(|old(log)|, |log|))
    {
      var a;
      a, reCycle' := ReferenceStep(prop, refs[i], reCycle);
      raised := a.MergeRaises?;
      ReferenceTraceUnfold(config, prop.claim.id, refs, i, sources, prop.claim.loaded);
      ghost var done := ReferencesReported(config, prop.claim.id, refs, i, sources, prop.claim.loaded);
      assert (log0 + done) + ReferenceReasons(a) == log0 + (done + ReferenceReasons(a));
    }

    /** `__init__.py:661-703`: every desired reference of the property, in order, until
        one raises `KeyError`. */
    method ReferenceTier(prop: ExtraProperty, reCycle: bool) returns (reCycle': bool, raised: bool)
      modifies this, prop.claim
      ensures prop.claim.sources == ReferencesApplied(config, prop.claim.id, SpecsOf(prop.extraReferences),
                                                      |prop.extraReferences|, old(prop.claim.sources), prop.claim.loaded)
      ensures prop.claim.target == old(prop.claim.target) && prop.claim.rank == old(prop.claim.rank)
      ensures prop.claim.qualifiers == old(prop.claim.qualifiers)
      ensures log == old(log) + ReferencesReported(config, prop.claim.id, SpecsOf(prop.extraReferences),
                                                   |prop.extraReferences|, old(prop.claim.sources), prop.claim.loaded)
      ensures raised == ReferencesRaised(config, prop.claim.id, SpecsOf(prop.extraReferences),
                                         |prop.extraReferences|, old(prop.claim.sources), prop.claim.loaded)
      ensures reCycle' == (reCycle || Answered(|old(log)|, |log|))
    {
      reCycle', raised := ReferenceLoop(prop, SpecsOf(prop.extraReferences), prop.claim.sources, reCycle);
    }

    /** The loop of `ReferenceTier` over the desired references `refs`, from the groups `s0`;
        it stops at the first `KeyError`. */
    method ReferenceLoop(prop: ExtraProperty, refs: seq<ReferenceSpec>, ghost s0: seq<RefGroup>, reCycle: bool)
      returns (reCycle': bool, raised: bool)
      requires prop.claim.sources == s0
      modifies this, prop.claim
      ensures prop.claim.sources == ReferencesApplied(config, prop.claim.id, refs, |refs|, s0, prop.claim.loaded)
      ensures prop.claim.target == old(prop.claim.target) && prop.claim.rank == old(prop.claim.rank)
      ensures prop.claim.qualifiers == old(prop.claim.qualifiers)
      ensures log == old(log) + ReferencesReported(config, prop.claim.id, refs, |refs|, s0, prop.claim.loaded)
      ensures raised == ReferencesRaised(config, prop.claim.id, refs, |refs|, s0, prop.claim.loaded)
      ensures reCycle' == (reCycle || Answered(|old(log)|, |log|))
    {
      var w := prop.claim;
      reCycle' := reCycle;
      raised := false;
      var i := 0;
      while i < |refs|
        invariant 0 <= i <= |refs| && prop.claim == w && |log| >= |old(log)|
        invariant !ReferencesRaised(config, w.id, refs, i, s0, w.loaded)
        invariant w.sources == ReferencesApplied(config, w.id, refs, i, s0, w.loaded)
        invariant w.target == old(w.target) && w.rank == old(w.rank) && w.qualifiers == old(w.qualifiers)
        invariant log == old(log) + ReferencesReported(config, w.id, refs, i, s0, w.loaded)
        invariant reCycle' == (reCycle || Answered(|old(log)|, |log|))
      {
        ghost var log1 := log;
        reCycle', raised := ReferenceTierStep(prop, refs, i, s0, old(log), reCycle');
        AnsweredSplit(|old(log)|, |log1|, |log|);
        if raised {
          RaisedTraceStays(config, w.id, refs, i + 1, |refs|, s0, w.loaded);
          return;
        }
        i := i + 1;
      }
    }

    /** `__init__.py:543-660`: every desired qualifier of the property, group by group.
        `raised` is the `KeyError` of `__init__.py:565`. */
    method QualifierTier(item: Entity, prop: ExtraProperty, original: Claim, ghost pool: set<Claim>, reCycle: bool)
      returns (reCycle': bool, raised: bool)
      requires ClaimSet(item.claims) <= pool && prop.claim in pool && original in pool
      modifies this, item, prop, pool
      ensures ClaimSet(item.claims) <= pool && prop.claim in pool
      ensures SameShape(prop.qualifiers, old(prop.qualifiers)) && prop.extraReferences == old(prop.extraReferences)
      ensures |log| >= |old(log)|
      ensures forall n :: |old(log)| <= n < |log| ==> log[n].QualifierModified() || log[n] == NewClaimFromQualifier
      ensures reCycle' == (reCycle || Answered(|old(log)|, |log|))
    {
      reCycle' := reCycle;
      raised := false;
      ghost var snapshot := prop.qualifiers;
      var gi := 0;
      while gi < |prop.qualifiers|
        invariant 0 <= gi <= |prop.qualifiers|
        invariant ClaimSet(item.claims) <= pool && prop.claim in pool
        invariant SameShape(prop.qualifiers, snapshot) && prop.extraReferences == old(prop.extraReferences)
        invariant |log| >= |old(log)|
        invariant forall n :: |old(log)| <= n < |log| ==> log[n].QualifierModified() || log[n] == NewClaimFromQualifier
        invariant reCycle' == (reCycle || Answered(|old(log)|, |log|))
      {
        var k := 0;
        while k < |prop.qualifiers[gi].1|
          invariant gi < |prop.qualifiers| && 0 <= k <= |prop.qualifiers[gi].1|
          invariant ClaimSet(item.claims) <= pool && prop.claim in pool
          invariant SameShape(prop.qualifiers, snapshot) && prop.extraReferences == old(prop.extraReferences)
          invariant |log| >= |old(log)|
          invariant forall n :: |old(log)| <= n < |log| ==> log[n].QualifierModified() || log[n] == NewClaimFromQualifier
          invariant reCycle' == (reCycle || Answered(|old(log)|, |log|))
        {
          ghost var log1 := log;
          var a;
          a, reCycle' := QualifierStep(gi, k, item, prop, original, pool, reCycle');
          AnsweredSplit(|old(log)|, |log1|, |log|);
          if a == MissingKey {
            return reCycle', true;
          }
          k := k + 1;
        }
        gi := gi + 1;
      }
    }

    /** `__init__.py:400-703` for one desired property under the output key `pid`: de-archiving,
        then the three tiers. `err` is the exception that escapes, if any. */
    method ProcessProperty(pid: PropId, item: Entity, prop: ExtraProperty, ghost pool: set<Claim>, reCycle: bool)
      returns (reCycle': bool, err: Option<Error>)
      requires ClaimSet(item.claims) <= pool && prop.claim in pool
      modifies this, item, prop, pool
      ensures ClaimSet(item.claims) <= pool && prop.claim in pool
      ensures |log| >= |old(log)|
      ensures reCycle' == (reCycle || Answered(|old(log)|, |log|))
      ensures err != Some(ApiError)
      ensures err == Some(ValueError) <==>
        config.autoDearchivifyUrls && old(prop.claim.target).Url? && ArchiveFails(old(prop.claim.target))
      ensures err == Some(ValueError) || err == Some(AttributeError) ==> log == old(log)
    {
      var original := prop.claim;
      if original.IsUrl() && config.autoDearchivifyUrls {
        var raised := DeArchivifyUrlProperty(prop, config.autoDeprecateArchifiedUrls);
        if raised {
          return reCycle, Some(ValueError);
        }
      }
      reCycle', err := PropertyTiers(pid, item, prop, original, pool, reCycle);
    }

    /** `__init__.py:408-703`: the statement, qualifier and reference tiers; `original` is the
        desired claim as it was before any statement was adopted. */
    method PropertyTiers(pid: PropId, item: Entity, prop: ExtraProperty, original: Claim, ghost pool: set<Claim>,
                         reCycle: bool)
      returns (reCycle': bool, err: Option<Error>)
      requires ClaimSet(item.claims) <= pool && prop.claim in pool && original in pool
      modifies this, item, prop, pool
      ensures ClaimSet(item.claims) <= pool && prop.claim in pool
      ensures |log| >= |old(log)|
      ensures reCycle' == (reCycle || Answered(|old(log)|, |log|))
      ensures err == None || err == Some(AttributeError) || err == Some(KeyError)
      ensures err == Some(AttributeError) ==> log == old(log)
    {
      err := None;
      var a;
      a, reCycle' := StatementTier(pid, item, prop, pool, reCycle);
      if a == LanguageError {
        return reCycle', Some(AttributeError);
      }
      if a == SkipProperty {
        return;
      }
      ghost var log1 := log;
      prop.SortQualifiers();
      var raised;
      reCycle', raised := QualifierTier(item, prop, original, pool, reCycle');
      AnsweredSplit(|old(log)|, |log1|, |log|);
      if raised {
        return reCycle', Some(KeyError);
      }
      ghost var log2 := log;
      reCycle', raised := ReferenceTier(prop, reCycle');
      AnsweredSplit(|old(log)|, |log2|, |log|);
      if raised {
        return reCycle', Some(KeyError);
      }
    }

    /** Hook calls from `a` on are at least as many as those from `b` on, and
        strictly more when one of the calls from `a` to `b` asked for another pass. */
    lemma AnsweredShrinks(a: nat, b: nat)
      requires a <= b
      ensures RemainingAt(b) <= RemainingAt(a)
      ensures Answered(a, b) ==> RemainingAt(b) < RemainingAt(a)
    {
      if Answered(a, b) {
        var k: nat :| a <= k < b && Answer(k);
      }
    }

    /** `process(output, item)`: passes over the output while a hook asks for another
        one, then the post-output hook (whose answer `postOutput` stands for; its
        request for another pass is not acted on), then the edit with its retries
        when anything was done. Attempt `k` of `editEntity` succeeds when
        `succeeds(k)`. `passes` counts the passes. */
    method Process(output: Entries<PropId, seq<ExtraProperty>>, item: Entity, postOutput: bool, succeeds: nat -> bool)
      returns (outcome: Outcome, attempts: nat, ghost passes: nat)
      modifies this, item, PropsOf(output), ClaimSet(item.claims), ClaimsOf(output)
      ensures 1 <= passes <= 1 + RemainingAt(|old(log)|)
      ensures !Answered(|old(log)|, |log|) ==> passes == 1
      ensures outcome.Finished? ==> (outcome.acted <==> |log| > |old(log)|)
      ensures outcome.Finished? && postOutput ==> outcome.acted && log[|log| - 1] == PostOutput
      ensures outcome == Finished(false) ==> attempts == 0
      ensures outcome == Finished(true) ==>
        1 <= attempts <= 4 && succeeds(attempts - 1) && forall k :: 0 <= k < attempts - 1 ==> !succeeds(k)
      ensures outcome == Raised(ApiError) ==> attempts == 4 && forall k :: 0 <= k < 4 ==> !succeeds(k)
      ensures outcome.Raised? && outcome.error != ApiError ==> attempts == 0
    {
      ghost var pool := ClaimSet(item.claims) + ClaimsOf(output);
      var start := |log|;
      var err;
      err, passes := Passes(output, item, pool);
      if err.Some? {
        return Raised(err.value), 0, passes;
      }
      var acted := |log| > start;
      if postOutput {
        var ignored := Report(PostOutput, false);
        acted := true;
      }
      AnsweredSplit(start, |old(log)|, |log|);
      if !acted {
        return Finished(false), 0, passes;
      }
      var ok;
      attempts, ok := EditWithRetry(succeeds);
      outcome := if ok then Finished(true) else Raised(ApiError);
    }

    /** `__init__.py:392-703`: the `while re_cycle` loop. */
    method Passes(output: Entries<PropId, seq<ExtraProperty>>, item: Entity, ghost pool: set<Claim>)
      returns (err: Option<Error>, ghost passes: nat)
      requires pool == ClaimSet(item.claims) + ClaimsOf(output)
      modifies this, item, PropsOf(output), pool
      ensures |log| >= |old(log)|
      ensures 1 <= passes <= 1 + RemainingAt(|old(log)|)
      ensures !Answered(|old(log)|, |log|) ==> passes == 1
      ensures err != Some(ApiError)
    {
      assert forall p :: p in PropsOf(output) ==> p.claim in pool;
      ghost var start := |log|;
      passes := 0;
      err := None;
      var reCycle := true;
      while reCycle
        invariant ClaimSet(item.claims) <= pool
        invariant forall p :: p in PropsOf(output) ==> p.claim in pool
        invariant |log| >= start && err == None
        invariant !reCycle ==> passes >= 1
        invariant passes > 1 || (passes == 1 && reCycle) ==> Answered(start, |log|)
        invariant reCycle && passes == 0 ==> |log| == start
        invariant passes + RemainingAt(|log|) <= RemainingAt(start) + (if reCycle then 0 else 1)
        decreases RemainingAt(|log|), reCycle
      {
        ghost var passStart := |log|;
        reCycle, err := Pass(output, item, pool);
        if err.Some? {
          AnsweredShrinks(passStart, |log|);
          AnsweredSplit(start, passStart, |log|);
          return err, passes + 1;
        }
        AnsweredShrinks(passStart, |log|);
        AnsweredSplit(start, passStart, |log|);
        passes := passes + 1;
      }
    }

    /** One pass: every desired property of the output, in order. */
    method Pass(output: Entries<PropId, seq<ExtraProperty>>, item: Entity, ghost pool: set<Claim>)
      returns (reCycle: bool, err: Option<Error>)
      requires ClaimSet(item.claims) <= pool
      requires forall p :: p in PropsOf(output) ==> p.claim in pool
      modifies this, item, PropsOf(output), pool
      ensures ClaimSet(item.claims) <= pool
      ensures forall p :: p in PropsOf(output) ==> p.claim in pool
      ensures |log| >= |old(log)|
      ensures reCycle == Answered(|old(log)|, |log|)
      ensures err != Some(ApiError)
    {
      reCycle := false;
      err := None;
      var i := 0;
      while i < |output|
        invariant 0 <= i <= |output|
        invariant ClaimSet(item.claims) <= pool
        invariant forall p :: p in PropsOf(output) ==> p.claim in pool
        invariant |log| >= |old(log)| && err == None
        invariant reCycle == Answered(|old(log)|, |log|)
      {
        ghost var log1 := |log|;
        var r;
        r, err := PassEntry(output, i, item, pool);
        AnsweredSplit(|old(log)|, log1, |log|);
        reCycle := reCycle || r;
        if err.Some? {
          return;
        }
        i := i + 1;
      }
    }

    /** The desired properties under output key `i`, in order. */
    method PassEntry(output: Entries<PropId, seq<ExtraProperty>>, i: nat, item: Entity, ghost pool: set<Claim>)
      returns (reCycle: bool, err: Option<Error>)
      requires i < |output|
      requires ClaimSet(item.claims) <= pool
      requires forall p :: p in PropsOf(output) ==> p.claim in pool
      modifies this, item, PropsOf(output), pool
      ensures ClaimSet(item.claims) <= pool
      ensures forall p :: p in PropsOf(output) ==> p.claim in pool
      ensures |log| >= |old(log)|
      ensures reCycle == Answered(|old(log)|, |log|)
      ensures err != Some(ApiError)
    {
      var pid := output[i].0;
      var props := output[i].1;
      reCycle := false;
      err := None;
      var j := 0;
      while j < |props|
        invariant 0 <= j <= |props|
        invariant ClaimSet(item.claims) <= pool
        invariant forall p :: p in PropsOf(output) ==> p.claim in pool
        invariant |log| >= |old(log)| && err == None
        invariant reCycle == Answered(|old(log)|, |log|)
      {
        var prop := props[j];
        assert prop in PropsOf(output);
        reCycle, err := ProcessProperty(pid, item, prop, pool, reCycle);
        if err.Some? {
          return;
        }
        j := j + 1;
      }
    }
  }
  /** The desired qualifier at (`gi`, `k`) rebound to stand for claim `s`. */
  function Rebound(e: Entries<PropId, seq<ExtraQualifier>>, gi: nat, k: nat, s: Snak): (r: Entries<PropId, seq<ExtraQualifier>>)
    requires gi < |e| && k < |e[gi].1|
    ensures SameShape(r, e)
  {
    e[gi := (e[gi].0, e[gi].1[k := e[gi].1[k].(claim := s)])]
  }
}
