/** Deletion keeps the links between items resolved. */
module LinkIntegrity {
  import opened Fields
  import opened Json
  import opened ItemStore
  import opened ItemService
  import opened StoreSteps
  import Elastic
  import Text

  /** Every link value names a stored document. */
  ghost predicate LinksResolve(docs: Docs) {
    forall k, link, v | k in docs && link in LINKS && v in Elastic.Values(docs[k], link) :: v in docs
  }

  lemma DeleteHits(docs: Docs, x: string, k: string, e: Elastic.Engine)
    requires k in docs
    ensures k in Hits(docs, DeleteModel(x), e) <==> HasId(docs[k], x) || PointsTo(docs[k], x)
  {
    DeleteMeaning(x, docs[k], e);
  }

  /** After a successful delete of x exactly one document is gone, every other is unchanged, and none of
      them has the id x or points to x. */
  lemma DeleteRemovesOne(docs: Docs, x: string, env: Env)
    requires Performed(docs, DeleteCheck(docs, x, env.e), env.dropNulls).Ok?
    ensures var after := Performed(docs, DeleteCheck(docs, x, env.e), env.dropNulls).value;
            && DeleteCheck(docs, x, env.e).value.Delete?
            && var gone := DeleteCheck(docs, x, env.e).value.key;
               && gone in docs && after == docs - {gone}
               && (HasId(docs[gone], x) || PointsTo(docs[gone], x))
               && forall k | k in after :: !HasId(after[k], x) && !PointsTo(after[k], x)
  {
    var hits := Hits(docs, DeleteModel(x), env.e);
    var gone := DeleteCheck(docs, x, env.e).value.key;
    SingletonHit(hits, gone);
    DeleteHits(docs, x, gone, env.e);
    forall k | k in docs && k != gone
      ensures !HasId(docs[k], x) && !PointsTo(docs[k], x)
    {
      DeleteHits(docs, x, k, env.e);
    }
  }

  lemma OwnDocumentGoes(docs: Docs, x: string, gone: string)
    requires Keyed(docs) && gone in docs && (HasId(docs[gone], x) || PointsTo(docs[gone], x))
    requires forall k | k in docs && k != gone :: !HasId(docs[k], x)
    ensures (gone == x <==> x in docs) && (x !in docs ==> PointsTo(docs[gone], x))
  {
    IdField(docs[gone], gone);
    if x in docs {
      IdField(docs[x], x);
    }
  }

  /** A successful delete of x removes x itself exactly when x was stored; otherwise it removes the one
      document that pointed to x. */
  lemma DeleteRemovesItselfExactly(docs: Docs, x: string, env: Env)
    requires Keyed(docs)
    requires Performed(docs, DeleteCheck(docs, x, env.e), env.dropNulls).Ok?
    ensures var gone := DeleteCheck(docs, x, env.e).value.key;
            (gone == x <==> x in docs) && (x !in docs ==> gone in docs && PointsTo(docs[gone], x))
  {
    DeleteRemovesOne(docs, x, env);
    var gone := DeleteCheck(docs, x, env.e).value.key;
    var after := Performed(docs, DeleteCheck(docs, x, env.e), env.dropNulls).value;
    forall k | k in docs && k != gone
      ensures !HasId(docs[k], x)
    {
      assert k in after && after[k] == docs[k];
    }
    OwnDocumentGoes(docs, x, gone);
  }

  lemma ResolvedTargetIsStored(docs: Docs, x: string, gone: string)
    requires LinksResolve(docs) && gone in docs && PointsTo(docs[gone], x)
    ensures x in docs
  {
    var link :| link in LINKS && RefersTo(docs[gone], link, x);
  }

  lemma LinksStayResolved(docs: Docs, x: string)
    requires Keyed(docs) && LinksResolve(docs)
    requires forall k | k in docs && k != x :: !PointsTo(docs[k], x)
    ensures Keyed(docs - {x}) && LinksResolve(docs - {x})
  {
    forall k, link, v | k in docs - {x} && link in LINKS && v in Elastic.Values(docs[k], link)
      ensures v in docs - {x}
    {
      LinkAside(docs[k], link, v, x);
    }
  }

  lemma NothingElsePoints(docs: Docs, x: string, gone: string)
    requires forall k | k in docs - {gone} :: !PointsTo(docs[k], x)
    ensures forall k | k in docs && k != gone :: !PointsTo(docs[k], x)
  {
    forall k | k in docs && k != gone
      ensures !PointsTo(docs[k], x)
    {
      assert k in docs - {gone};
    }
  }

  lemma DeleteTakesItself(docs: Docs, x: string, env: Env)
    requires Keyed(docs) && LinksResolve(docs)
    requires Performed(docs, DeleteCheck(docs, x, env.e), env.dropNulls).Ok?
    ensures x in docs && Performed(docs, DeleteCheck(docs, x, env.e), env.dropNulls).value == docs - {x}
    ensures forall k | k in docs && k != x :: !PointsTo(docs[k], x)
  {
    DeleteRemovesOne(docs, x, env);
    DeleteRemovesItselfExactly(docs, x, env);
    var gone := DeleteCheck(docs, x, env.e).value.key;
    if x !in docs {
      ResolvedTargetIsStored(docs, x, gone);
    }
    NothingElsePoints(docs, x, gone);
  }

  /** If all links resolved, the document removed is x itself and all links still resolve. */
  lemma DeleteKeepsLinks(docs: Docs, x: string, env: Env)
    requires Keyed(docs) && LinksResolve(docs)
    requires Performed(docs, DeleteCheck(docs, x, env.e), env.dropNulls).Ok?
    ensures var after := Performed(docs, DeleteCheck(docs, x, env.e), env.dropNulls).value;
            x in docs && after == docs - {x} && Keyed(after) && LinksResolve(after)
  {
    DeleteTakesItself(docs, x, env);
    LinksStayResolved(docs, x);
  }

  lemma LinkAside(d: Object, link: string, v: string, x: string)
    requires link in LINKS && v in Elastic.Values(d, link) && !PointsTo(d, x)
    ensures v != x
  {
    assert RefersTo(d, link, v);
  }

  /** A refused delete changes nothing. */
  ghost function DeleteOne(docs: Docs, id: string, env: Env): Docs {
    var after := Performed(docs, DeleteCheck(docs, id, env.e), env.dropNulls);
    if after.Ok? then after.value else docs
  }

  /** Deletes one id after the other. */
  ghost function DeleteAll(docs: Docs, ids: seq<string>, env: Env): Docs
    decreases |ids|
  {
    if ids == [] then docs else DeleteAll(DeleteOne(docs, ids[0], env), ids[1..], env)
  }

  lemma DeleteOneKeepsLinks(docs: Docs, id: string, env: Env)
    requires Keyed(docs) && LinksResolve(docs)
    ensures var after := DeleteOne(docs, id, env);
            Keyed(after) && LinksResolve(after) && (after == docs || after == docs - {id})
  {
    if Performed(docs, DeleteCheck(docs, id, env.e), env.dropNulls).Ok? {
      DeleteKeepsLinks(docs, id, env);
    }
  }

  /** Any sequence of deletes keeps all links resolved and only removes documents whose ids were given. */
  lemma {:induction false} DeletesKeepLinks(docs: Docs, ids: seq<string>, env: Env)
    requires Keyed(docs) && LinksResolve(docs)
    ensures var after := DeleteAll(docs, ids, env);
            && Keyed(after) && LinksResolve(after)
            && (forall k | k in after :: k in docs && after[k] == docs[k])
            && (forall k | k in docs && k !in after :: k in ids)
    decreases |ids|
  {
    if ids == [] {
    } else {
      DeleteOneKeepsLinks(docs, ids[0], env);
      DeletesKeepLinks(DeleteOne(docs, ids[0], env), ids[1..], env);
    }
  }

  lemma KeyedDeleteHits(docs: Docs, x: string, k: string, e: Elastic.Engine)
    requires Keyed(docs) && k in docs
    ensures k in Hits(docs, DeleteModel(x), e) <==> k == x || PointsTo(docs[k], x)
  {
    IdField(docs[k], k);
    DeleteHits(docs, x, k, e);
  }

  /** A dangling link makes the delete of a missing x remove the only document that points to x. */
  lemma DanglingLinkDeletesReferrer(c: string, child: Object, link: string, x: string, env: Env)
    requires Get(child, ID) == JStr(c) && c != x && !Text.TrimsToEmpty(c) && !Text.IsBlank(x)
    requires link in LINKS && RefersTo(child, link, x)
    ensures var docs: Docs := map[c := child];
            && Keyed(docs) && !LinksResolve(docs)
            && Performed(docs, DeleteCheck(docs, x, env.e), env.dropNulls) == Ok(map[])
  {
    var docs: Docs := map[c := child];
    assert x in Elastic.Values(docs[c], link) && x !in docs;
    KeyedDeleteHits(docs, x, c, env.e);
    assert Hits(docs, DeleteModel(x), env.e) == {c};
    SingletonHit({c}, c);
    assert docs - {c} == map[];
  }

  lemma TwoHits(hits: set<string>, j: string, k: string)
    requires j in hits && k in hits && j != k
    ensures |hits| > 1
  {
    SubsetSize({j, k}, hits);
  }

  /** The delete of a stored x goes through exactly when nothing else points to it. */
  lemma DeleteAcceptedExactly(docs: Docs, x: string, env: Env)
    requires Keyed(docs) && x in docs
    ensures DeleteCheck(docs, x, env.e).Ok? <==>
            !Text.IsBlank(x) && forall k | k in docs && k != x :: !PointsTo(docs[k], x)
  {
    var hits := Hits(docs, DeleteModel(x), env.e);
    forall k | k in docs
      ensures k in hits <==> k == x || PointsTo(docs[k], x)
    {
      KeyedDeleteHits(docs, x, k, env.e);
    }
    if forall k | k in docs && k != x :: !PointsTo(docs[k], x) {
      assert hits == {x};
    } else {
      var k :| k in docs && k != x && PointsTo(docs[k], x);
      TwoHits(hits, x, k);
    }
  }
}
