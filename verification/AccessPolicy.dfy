/** The policy a search applies and the policy get-item applies are the same. */
module AccessPolicy {
  import opened Fields
  import opened Json
  import opened Elastic
  import opened Decorators
  import opened QueryDecoder
  import opened QueryMeaning
  import opened QueryTheorems
  import Text

  datatype Verdict = Granted | Denied | Throws

  /** The check get-item makes on the document it found; the caller without a token has subId "". */
  function OwnershipCheck(source: Object, subId: string, text: Json -> string): Verdict {
    var accessPolicy := GetString(source, ACCESS_POLICY, text);
    var ownerUserId := GetString(source, OWNER, text);
    if accessPolicy.Some? && Text.EqualsIgnoreCase("private", accessPolicy.value) then
      if subId == "" then Denied
      else if ownerUserId.None? then Throws
      else if !Text.EqualsIgnoreCase(ownerUserId.value, subId) then Denied
      else Granted
    else Granted
  }

  ghost predicate HasPolicyAndOwner(d: Object, policy: string, owner: string) {
    && ACCESS_POLICY in d && d[ACCESS_POLICY] == JStr(policy)
    && OWNER in d && d[OWNER] == JStr(owner)
  }

  predicate KnownPolicy(policy: string) {
    || Text.EqualsIgnoreCase(policy, OPEN)
    || Text.EqualsIgnoreCase(policy, RESTRICTED)
    || Text.EqualsIgnoreCase(policy, PRIVATE)
  }

  function Caller(sub: Option<string>): string {
    if sub.Some? then sub.value else ""
  }

  lemma FoldedField(field: string, value: string, query: string, d: Object, e: Engine)
    requires CaseFolds(e, field) && !Text.EndsWith(field, KEYWORD)
    requires field in d && d[field] == JStr(value)
    ensures FieldMatches(d, e, field, query) <==> Text.EqualsIgnoreCase(value, query)
  {
    assert Values(d, field) == [value];
    assert forall v :: v in Values(d, field) ==> v == value;
    assert value in Values(d, field);
  }

  lemma PolicyFields()
    ensures !Text.EndsWith(ACCESS_POLICY, KEYWORD) && !Text.EndsWith(OWNER, KEYWORD)
  {
    assert ACCESS_POLICY[4] != KEYWORD[0];
    assert OWNER[2] != KEYWORD[0];
  }

  /** "private", as the ownership check spells it, and PRIVATE, as the query does, fold to one word. */
  lemma PolicyWordsFold()
    ensures Text.ToLower("private") == Text.ToLower(PRIVATE) == "private"
    ensures Text.ToLower(OPEN) == "open" && Text.ToLower(RESTRICTED) == "restricted"
  {
  }

  lemma PolicyMatches(d: Object, e: Engine, policy: string, owner: string, sub: string)
    requires CaseFolds(e, ACCESS_POLICY) && CaseFolds(e, OWNER)
    requires HasPolicyAndOwner(d, policy, owner)
    ensures FieldMatches(d, e, ACCESS_POLICY, OPEN) <==> Text.EqualsIgnoreCase(policy, OPEN)
    ensures FieldMatches(d, e, ACCESS_POLICY, RESTRICTED) <==> Text.EqualsIgnoreCase(policy, RESTRICTED)
    ensures FieldMatches(d, e, ACCESS_POLICY, PRIVATE) <==> Text.EqualsIgnoreCase(policy, PRIVATE)
    ensures FieldMatches(d, e, OWNER, sub) <==> Text.EqualsIgnoreCase(owner, sub)
  {
    PolicyFields();
    FoldedField(ACCESS_POLICY, policy, OPEN, d, e);
    FoldedField(ACCESS_POLICY, policy, RESTRICTED, d, e);
    FoldedField(ACCESS_POLICY, policy, PRIVATE, d, e);
    FoldedField(OWNER, owner, sub, d, e);
  }

  /** Outside my-assets the access clause and the ownership check agree on a document exactly when the
      caller is anonymous or the policy is a known one: to a signed-in caller an unknown policy passes the
      ownership check and is never found. */
  lemma AgreementNeedsKnownPolicy(r: AccessRequest, d: Object, e: Engine, policy: string, owner: string,
                                  text: Json -> string)
    requires CaseFolds(e, ACCESS_POLICY) && CaseFolds(e, OWNER)
    requires HasPolicyAndOwner(d, policy, owner)
    requires !(SignedIn(r) && r.myAssets == Some(true))
    ensures (ClausesHold(AccessClauses(r), d, e) <==> OwnershipCheck(d, Caller(r.sub), text) == Granted)
       <==> (SignedIn(r) ==> KnownPolicy(policy))
  {
    AccessBlockMeaning(r, d, e);
    PolicyMatches(d, e, policy, owner, Caller(r.sub));
    PolicyWordsFold();
  }

  /** An item with the policy PUBLIC may be got by everyone but is found by no signed-in caller. */
  lemma PublicItemIsNotFound(e: Engine, text: Json -> string)
    requires CaseFolds(e, ACCESS_POLICY) && CaseFolds(e, OWNER)
    ensures var d: Object := map[ACCESS_POLICY := JStr("PUBLIC"), OWNER := JStr("a")];
            && OwnershipCheck(d, "b", text) == Granted
            && !ClausesHold(AccessClauses(AccessRequest(Some("b"), None)), d, e)
  {
    var d: Object := map[ACCESS_POLICY := JStr("PUBLIC"), OWNER := JStr("a")];
    var r := AccessRequest(Some("b"), None);
    PolicyWordsFold();
    PublicIsUnknown();
    AgreementNeedsKnownPolicy(r, d, e, "PUBLIC", "a", text);
  }

  lemma PublicIsUnknown()
    ensures !KnownPolicy("PUBLIC") && !Text.EqualsIgnoreCase("private", "PUBLIC")
  {
    assert Text.ToLower("PUBLIC")[1] == 'u';
    assert Text.ToLower(OPEN)[1] == 'p' && Text.ToLower(RESTRICTED)[1] == 'e' && Text.ToLower(PRIVATE)[1] == 'r';
    assert Text.ToLower("private")[1] == 'r';
  }

  /** With a known policy the two agree for signed-in and anonymous callers alike. */
  lemma AccessClauseIsOwnershipCheck(r: AccessRequest, d: Object, e: Engine, policy: string, owner: string,
                                     text: Json -> string)
    requires CaseFolds(e, ACCESS_POLICY) && CaseFolds(e, OWNER)
    requires HasPolicyAndOwner(d, policy, owner) && KnownPolicy(policy)
    requires !(SignedIn(r) && r.myAssets == Some(true))
    ensures ClausesHold(AccessClauses(r), d, e) <==> OwnershipCheck(d, Caller(r.sub), text) == Granted
  {
    AgreementNeedsKnownPolicy(r, d, e, policy, owner, text);
  }

  /** Whatever a search or a my-assets query returns, its caller may also get. */
  lemma EveryHitMayBeRead(r: SearchRequest, d: Object, e: Engine, policy: string, owner: string, text: Json -> string)
    requires CaseFolds(e, ACCESS_POLICY) && CaseFolds(e, OWNER)
    requires HasPolicyAndOwner(d, policy, owner)
    requires Selects(r, d, e)
    ensures OwnershipCheck(d, Caller(r.access.sub), text) == Granted
  {
    CompilationPreservesMeaning(r, d, e);
    PolicyMatches(d, e, policy, owner, Caller(r.access.sub));
    PolicyWordsFold();
  }
}
