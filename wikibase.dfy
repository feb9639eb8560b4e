/** Property IDs and item IDs the framework uses (wikidata_bot_framework/constants.py). */
module Constants {
  type PropId = string

  const UrlProp: PropId := "P854"                // reference URL
  const RetrievedProp: PropId := "P813"          // retrieved
  const ArchiveUrlProp: PropId := "P1065"        // archive URL
  const ArchiveDateProp: PropId := "P2960"       // archive date
  const DeprecatedReasonProp: PropId := "P2241"  // reason for deprecated rank
  const LinkRotId: string := "Q1193907"          // link rot
  const PreferredRankReasonProp: PropId := "P7452"
}

/** The parts of the knowledge-base client's fact model that the engine uses:
    claim targets, ranks, qualifier and reference claims, main claims and the
    entity holding them. */
module Wikibase {
  import opened Constants
  import opened Collections

  /** A claim's target. Targets are compared by value equality. */
  datatype Value =
    | Unset                                        // a claim whose target was never set
    | Url(url: string)                             // the target of a URL-typed property
    | Text(text: string)                           // string and external-identifier targets
    | Monolingual(text: string, language: string)  // WbMonolingualText
    | Item(qid: string)                            // ItemPage
    | Time(year: int, month: int, day: int)        // WbTime at day precision
    | Quantity(amount: int)

  /** Python truthiness of a target: empty strings and unset targets are false. */
  predicate Truthy(v: Value)
  {
    match v
    case Unset => false
    case Url(s) => s != []
    case Text(s) => s != []
    case _ => true
  }

  datatype Rank = Normal | Preferred | Deprecated

  /** A qualifier or reference claim. These are only ever appended, compared by
      target and (for qualifiers) re-targeted, so they are values here. */
  datatype Snak = Snak(id: PropId, target: Value, isQualifier: bool, isReference: bool)

  /** A reference group: property ID to the source claims under it. */
  type RefGroup = map<PropId, seq<Snak>>

  /** A main statement. It is a mutable object: the engine changes its rank,
      target, qualifiers and reference groups, and the same object may sit in an
      entity's claim list and in a desired property at once. */
  class Claim {
    const id: PropId
    var target: Value
    var rank: Rank
    var qualifiers: map<PropId, seq<Snak>>
    var sources: seq<RefGroup>
    /** How many of the leading reference groups were loaded from the server.
        pywikibot builds each of those as an `OrderedDict`; the groups that
        `add_reference_locally` appends after them are `defaultdict(list)`s. Groups
        are only ever appended, so the loaded ones stay the first `loaded`. */
    const loaded: nat

    /** `pywikibot.Claim(site, id)` followed by `setTarget(target)` */
    constructor (id: PropId, target: Value)
      ensures this.id == id && this.target == target && rank == Normal
      ensures qualifiers == map[] && sources == [] && loaded == 0
    {
      this.id := id;
      this.target := target;
      rank := Normal;
      qualifiers := map[];
      sources := [];
      loaded := 0;
    }

    /** A statement of an entity fetched from the server (pywikibot's `Claim.fromJSON`):
        every reference group it holds is a loaded one. */
    constructor FromServer(id: PropId, target: Value, rank: Rank, qualifiers: map<PropId, seq<Snak>>,
                           sources: seq<RefGroup>)
      ensures this.id == id && this.target == target && this.rank == rank
      ensures this.qualifiers == qualifiers && this.sources == sources && loaded == |sources|
    {
      this.id := id;
      this.target := target;
      this.rank := rank;
      this.qualifiers := qualifiers;
      this.sources := sources;
      loaded := |sources|;
    }

    /** `claim.type == "url"`: the property's datatype, read off the target here. */
    predicate IsUrl()
      reads this
    {
      target.Url?
    }
  }

  /** An item, property or lexeme page: property ID to its statements, in order. */
  class Entity {
    var claims: map<PropId, seq<Claim>>

    constructor (claims: map<PropId, seq<Claim>>)
      ensures this.claims == claims
    {
      this.claims := claims;
    }

    /** Every statement object the entity holds. */
    ghost function Statements(): set<Claim>
      reads this
    {
      ClaimSet(claims)
    }
  }

  /** Every statement object held in a claims map. */
  ghost function ClaimSet(m: map<PropId, seq<Claim>>): set<Claim>
  {
    set k, c | k in m && c in m[k] :: c
  }

  /** Appending a statement adds exactly that object to the set. */
  lemma ClaimSetAppendTo(m: map<PropId, seq<Claim>>, k: PropId, c: Claim)
    ensures ClaimSet(AppendTo(m, k, c)) == ClaimSet(m) + {c}
  {
    var r := AppendTo(m, k, c);
    assert c in r[k];
    forall x | x in ClaimSet(m) ensures x in ClaimSet(r) {
      var k' :| k' in m && x in m[k'];
      if k' == k {
        assert x in Lookup(m, k) + [c];
      }
    }
    forall x | x in ClaimSet(r) ensures x in ClaimSet(m) + {c} {
      var k' :| k' in r && x in r[k'];
      if k' == k && x != c {
        assert x in Lookup(m, k);
      }
    }
  }

  /** Narrowing one property's list to a statement it already held adds nothing. */
  lemma ClaimSetCollapse(m: map<PropId, seq<Claim>>, k: PropId, c: Claim)
    requires k in m && c in m[k]
    ensures ClaimSet(m[k := [c]]) <= ClaimSet(m)
  {
  }
}
