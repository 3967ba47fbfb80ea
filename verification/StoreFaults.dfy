/** Which requests are refused, and why. */
module StoreFaults {
  import opened Fields
  import opened Json
  import opened ItemStore
  import opened ItemService
  import opened StoreSteps
  import Elastic
  import Factory = ItemFactory
  import Text

  // ---------------------------------------------------------------- the checks before a write

  /** A create is turned down for a missing or blank id and for one that is stored, and for nothing else. */
  lemma CreateCheckFaults(docs: Docs, p: Object, e: Elastic.Engine)
    requires Keyed(docs)
    ensures (forall id: string :: Get(p, ID) != JStr(id)) ==> CreateCheck(docs, p, e) == Err(NoId)
    ensures forall id: string :: Get(p, ID) == JStr(id) ==>
              CreateCheck(docs, p, e) ==
              if Text.IsBlank(id) then Err(NoId) else if id in docs then Err(AlreadyExists) else Ok(Index(p))
  {
    if Get(p, ID).JStr? {
      IdHits(docs, Get(p, ID).s, e);
    }
  }

  lemma TypedHits(docs: Docs, id: string, t: string, e: Elastic.Engine)
    requires Keyed(docs)
    ensures Hits(docs, UpdateModel(id, t), e) != {} <==> id in docs && t in Elastic.Values(docs[id], TYPE)
  {
    forall k | k in docs
      ensures k in Hits(docs, UpdateModel(id, t), e) <==> k == id && t in Elastic.Values(docs[k], TYPE)
    {
      UpdateMeaning(id, t, docs[k], e);
      IdField(docs[k], k);
    }
  }

  lemma FirstOfTypes(p: Object, t: string, rest: seq<Json>)
    requires Get(p, TYPE) == JArr([JStr(t)] + rest)
    ensures FirstType(p) == Some(t)
  {
  }

  /** An update is turned down for a missing or blank first type, then for a missing or blank id, then if
      no document with the id lists the type. */
  lemma UpdateCheckFaults(docs: Docs, p: Object, t: string, rest: seq<Json>, e: Elastic.Engine)
    requires Keyed(docs) && Get(p, TYPE) == JArr([JStr(t)] + rest)
    ensures UpdateCheck(docs, p, e) ==
            if Text.IsBlank(t) then Err(NoType)
            else if !Get(p, ID).JStr? || Text.IsBlank(Get(p, ID).s) then Err(NoId)
            else if Get(p, ID).s !in docs || t !in Elastic.Values(docs[Get(p, ID).s], TYPE) then Err(NotFound)
            else Ok(Update(Get(p, ID).s, p))
  {
    FirstOfTypes(p, t, rest);
    if Get(p, ID).JStr? {
      TypedHits(docs, Get(p, ID).s, t, e);
    }
  }

  lemma UntypedUpdate(docs: Docs, p: Object, e: Elastic.Engine)
    requires !Get(p, TYPE).JArr? || Get(p, TYPE).elems == [] || !Get(p, TYPE).elems[0].JStr?
    ensures UpdateCheck(docs, p, e) == Err(NoType)
  {
  }

  /** The keys of the item and of the documents that point to it. */
  function Concerned(docs: Docs, x: string): set<string> {
    set k | k in docs && (k == x || PointsTo(docs[k], x))
  }

  /** A delete is turned down for a blank id, when it concerns no document and when it concerns several;
      otherwise it removes the one it concerns. */
  lemma DeleteCheckFaults(docs: Docs, x: string, e: Elastic.Engine)
    requires Keyed(docs)
    ensures Text.IsBlank(x) ==> DeleteCheck(docs, x, e) == Err(NoId)
    ensures !Text.IsBlank(x) && |Concerned(docs, x)| > 1 ==> DeleteCheck(docs, x, e) == Err(HasAssociated)
    ensures !Text.IsBlank(x) && |Concerned(docs, x)| < 1 ==> DeleteCheck(docs, x, e) == Err(NotFound)
    ensures forall k: string ::
              !Text.IsBlank(x) && Concerned(docs, x) == {k} ==> DeleteCheck(docs, x, e) == Ok(Delete(k))
  {
    forall k | k in docs
      ensures k in Hits(docs, DeleteModel(x), e) <==> k in Concerned(docs, x)
    {
      DeleteMeaning(x, docs[k], e);
      IdField(docs[k], k);
    }
    assert Hits(docs, DeleteModel(x), e) == Concerned(docs, x);
  }

  /** The store turns down an index without an id, and an update or delete of a key that is absent or made up
      of control characters and spaces. */
  lemma CommitFaults(docs: Docs, w: Write, dropNulls: bool)
    ensures Commit(docs, w, dropNulls).Err? <==>
            match w
            case Index(doc) => forall id: string :: Get(doc, ID) != JStr(id)
            case Update(key, _) => key !in docs || forall i :: 0 <= i < |key| ==> key[i] <= ' '
            case Delete(key) => key !in docs || forall i :: 0 <= i < |key| ==> key[i] <= ' '
  {
  }

  // ---------------------------------------------------------------- validation

  /** Does validation write the statuses itself? It does for AI models and data banks, but for an update
      whose name is not found. */
  predicate SetsStatus(kind: Factory.Kind, post: bool, l: Lookup) {
    kind != Factory.AppsKind && (post || l.Found?)
  }

  /** Validation turns down a request whose lookup failed, then a create of a name that is taken, then a null
      media URL where the upload status depends on it; otherwise every field it does not set is kept. */
  lemma JudgedExactly(kind: Factory.Kind, post: bool, request: Object, l: Lookup, text: Json -> string)
    ensures var r := Judged(kind, post, request, l, text);
            if l.Failed? then r == Err(SearchFailed)
            else if post && !LetsCreate(kind, l) then r == Err(AlreadyExists)
            else if SetsStatus(kind, post, l) && MEDIA_URL in request && request[MEDIA_URL].JNull? then
              r == Err(NoAnswer)
            else && r.Ok?
                 && var statuses := {DATA_UPLOAD_STATUS, PUBLISH_STATUS};
                    if SetsStatus(kind, post, l) then r.value - statuses == request - statuses else r.value == request
  {
  }

  /** A request that validation lets through is unparsable exactly when its first type is no item type whose class
      can read it. */
  lemma UnparsableExactly(kind: Factory.Kind, post: bool, body: Object, stamp: Stamp, l: Lookup, text: Json -> string)
    requires Prepared(body, stamp, text).Ok? && Judged(kind, post, Prepared(body, stamp, text).value, l, text).Ok?
    ensures var judged := Judged(kind, post, Prepared(body, stamp, text).value, l, text).value;
            ItemOf(kind, post, body, stamp, l, text) == Err(Unparsable) <==>
            !exists k: Factory.Kind, rest: seq<Json> ::
              Get(judged, TYPE) == JArr([JStr(Factory.TypeName(k))] + rest) && Factory.Readable(k, judged)
  {
    Factory.ParseExactly(Judged(kind, post, Prepared(body, stamp, text).value, l, text).value, text);
  }

  // ---------------------------------------------------------------- routing

  /** A body is routed to a kind exactly when its type list holds the type of the kind and no other of the
      nine types the catalogue knows. */
  lemma RoutedExactly(body: Object, kind: Factory.Kind)
    ensures KindOf(body) == Some(kind) <==>
            && Get(body, TYPE).JArr? && JStr(Factory.TypeName(kind)) in Get(body, TYPE).elems
            && forall t | t in {"iudx:Resource", "iudx:ResourceGroup", "iudx:ResourceServer", "iudx:Provider",
                                "iudx:COS", "iudx:Owner", "adex:AiModel", "adex:DataBank", "adex:Apps"} ::
                 t != Factory.TypeName(kind) ==> JStr(t) !in Get(body, TYPE).elems
  {
    RoutedOnce(body, kind);
    NineTypes();
  }

  lemma NineTypes()
    ensures ITEM_TYPES == {"iudx:Resource", "iudx:ResourceGroup", "iudx:ResourceServer", "iudx:Provider", "iudx:COS",
                           "iudx:Owner", "adex:AiModel", "adex:DataBank", "adex:Apps"}
  {
  }

  lemma RoutedOnce(body: Object, kind: Factory.Kind)
    ensures KindOf(body) == Some(kind) <==> Routed(body, kind)
  {
    forall k: Factory.Kind | Routed(body, k) && Routed(body, kind)
      ensures k == kind
    {
      ListedAmongItemTypes(k);
      TypeNamesDiffer(k, kind);
    }
  }
}
