/** The engine's configuration and the pure policy pieces around
    `PropertyAdderBot` (wikidata_bot_framework/__init__.py): whitelists, the
    edit summary, and the bounded retry of the final edit. */
module Policy {
  import opened Collections
  import opened Constants
  import opened DataClasses

  /** `Config`: a frozen record of toggles. */
  datatype Config = Config(
    autoDearchivifyUrls: bool,
    autoDeprecateArchifiedUrls: bool,
    mainWhitelistEnabled: bool,
    mainWhitelist: seq<string>,
    copyRanksForNonwhitelistedMainProperties: bool,
    qualifierWhitelistEnabled: bool,
    qualifierWhitelist: seq<string>,
    referenceWhitelistEnabled: bool,
    referenceWhitelist: seq<string>)

  /** `Config()` with its defaults. */
  const DefaultConfig: Config := Config(true, true, false, [], true, false, [], false, [])

  /** `whitelisted_claim`: with the main-property whitelist off every claim passes;
      with it on, exactly the claims whose property ID is listed. */
  function WhitelistedClaim(cfg: Config, claimId: PropId): (r: bool)
    ensures !cfg.mainWhitelistEnabled ==> r
    ensures cfg.mainWhitelistEnabled ==> (r <==> claimId in cfg.mainWhitelist)
  {
    if cfg.mainWhitelistEnabled then
      if claimId in cfg.mainWhitelist then true else false
    else true
  }

  /** `whitelisted_qualifier`, reading the qualifier's own property ID. */
  function WhitelistedQualifier(cfg: Config, qualifierId: PropId): (r: bool)
    ensures !cfg.qualifierWhitelistEnabled ==> r
    ensures cfg.qualifierWhitelistEnabled ==> (r <==> qualifierId in cfg.qualifierWhitelist)
  {
    if cfg.qualifierWhitelistEnabled then
      if qualifierId in cfg.qualifierWhitelist then true else false
    else true
  }

  /** `whitelisted_reference`, reading the property IDs the reference contributes:
      with the reference whitelist on, every one of them must be listed. */
  function WhitelistedReference(cfg: Config, reference: ReferenceSpec): (r: bool)
    ensures !cfg.referenceWhitelistEnabled ==> r
    ensures cfg.referenceWhitelistEnabled ==>
      (r <==> forall i :: 0 <= i < |reference.newReferenceProps| ==> reference.newReferenceProps[i].0 in cfg.referenceWhitelist)
  {
    if cfg.referenceWhitelistEnabled then
      AllListed(KeysOf(reference.newReferenceProps), cfg.referenceWhitelist)
    else true
  }

  /** Is every one of `ids` in `whitelist`? */
  function AllListed(ids: seq<PropId>, whitelist: seq<string>): (r: bool)
    ensures r <==> forall i :: 0 <= i < |ids| ==> ids[i] in whitelist
  {
    if ids == [] then true
    else if ids[0] in whitelist then
      var rest := AllListed(ids[1..], whitelist);
      assert forall i :: 1 <= i < |ids| ==> ids[i] == ids[1..][i - 1];
      rest
    else false
  }

  /** `can_add_main_property`: a property marked reference-only is never added. */
  function CanAddMainProperty(referenceOnly: bool): (r: bool)
    ensures r <==> !referenceOnly
  {
    !referenceOnly
  }

  const EditGroupOpen: string := " ([[:toolforge:editgroups/b/CB/"
  const EditGroupClose: string := "|details]])"

  /** Is the edit group ID present and truthy (a non-empty string)? */
  predicate HasEditGroup(editGroupId: Option<string>)
  {
    editGroupId.Some? && editGroupId.value != ""
  }

  /** `_get_full_summary`: the bot's summary, followed by an edit-group link only
      when the edit group ID is a non-empty string. The link opens with
      ` ([[:toolforge:editgroups/b/CB/` and closes with `|details]])`. */
  function FullSummary(base: string, editGroupId: Option<string>): (r: string)
    ensures r == base <==> !HasEditGroup(editGroupId)
    ensures |r| >= |base| && r[..|base|] == base
    ensures HasEditGroup(editGroupId) ==>
      && |r| == |base| + |EditGroupOpen| + |editGroupId.value| + |EditGroupClose|
      && r[|base|..|base| + |EditGroupOpen|] == " ([[:toolforge:editgroups/b/CB/"
      && r[|r| - |EditGroupClose|..] == "|details]])"
  {
    if HasEditGroup(editGroupId) then
      var r := base + EditGroupOpen + editGroupId.value + EditGroupClose;
      assert |r| > |base|;
      assert r[..|base|] == base;
      r
    else base
  }

  /** Reads the edit group ID back out of a full summary built on `base`: the text
      between the link's opening and closing delimiters, when both are there. */
  function EditGroupOf(base: string, summary: string): Option<string>
  {
    if |summary| >= |base| + |EditGroupOpen| + |EditGroupClose| && summary[..|base|] == base
       && summary[|base|..|base| + |EditGroupOpen|] == EditGroupOpen
       && summary[|summary| - |EditGroupClose|..] == EditGroupClose
    then Some(summary[|base| + |EditGroupOpen|..|summary| - |EditGroupClose|])
    else None
  }

  /** The summary carries exactly the truthy edit group ID: it can be read back. */
  lemma FullSummaryRoundTrip(base: string, editGroupId: Option<string>)
    ensures HasEditGroup(editGroupId) ==> EditGroupOf(base, FullSummary(base, editGroupId)) == editGroupId
    ensures !HasEditGroup(editGroupId) ==> EditGroupOf(base, FullSummary(base, editGroupId)) == None
  {
    if HasEditGroup(editGroupId) {
      var id := editGroupId.value;
      var r := FullSummary(base, editGroupId);
      assert r == base + EditGroupOpen + id + EditGroupClose;
      assert r[|base|..|base| + |EditGroupOpen|] == EditGroupOpen;
      assert r[|r| - |EditGroupClose|..] == EditGroupClose;
      assert r[|base| + |EditGroupOpen|..|r| - |EditGroupClose|] == id;
    }
  }

  /** The bounded retry around `editEntity`: `retries` starts at 3, every API error
      decrements it, and the error is re-raised once it drops below zero. Attempt `k`
      (from 0) succeeds when `succeeds(k)`. */
  method EditWithRetry(succeeds: nat -> bool) returns (attempts: nat, ok: bool)
    ensures 1 <= attempts <= 4
    ensures ok <==> exists k :: 0 <= k < 4 && succeeds(k)
    ensures ok ==> succeeds(attempts - 1)
    ensures forall k :: 0 <= k < attempts - 1 ==> !succeeds(k)
    ensures !ok ==> attempts == 4
  {
    var retries := 3;
    attempts := 0;
    ok := false;
    while retries >= 0
      invariant -1 <= retries <= 3 && attempts == 3 - retries
      invariant forall k :: 0 <= k < attempts ==> !succeeds(k)
      decreases retries + 1
    {
      attempts := attempts + 1;
      if succeeds(attempts - 1) {
        ok := true;
        return;
      }
      retries := retries - 1;
      if retries < 0 {
        return;
      }
    }
  }
}
