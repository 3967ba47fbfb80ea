/** The document store behind the services: one index, searched by query and written by key. */
module ItemStore {
  import opened Fields
  import opened Json
  import opened QueryModels
  import opened QueryMeaning
  import Elastic
  import Text

  type Docs = map<string, Object>

  const SUMMARY := "_summary"

  datatype Hit = Hit(key: string, source: Object)

  datatype StoreError = BadQuery | NotWritten

  datatype Write = Index(doc: Object) | Update(key: string, doc: Object) | Delete(key: string)

  /** The keys of the documents a query selects. */
  function Hits(docs: Docs, q: QueryModel, e: Elastic.Engine): set<string> {
    set k | k in docs && Holds(q, docs[k], e)
  }

  /** On its way to the store a document may lose its null-valued fields. */
  function Sent(doc: Object, dropNulls: bool): Object {
    if dropNulls then map k | k in doc && doc[k] != JNull :: doc[k] else doc
  }

  /** The effect of a write: indexing goes by the id inside the document, an update merges into an
      existing document, and updates and deletes of an absent key fail. */
  function Commit(docs: Docs, w: Write, dropNulls: bool): Result<Docs, StoreError> {
    match w
    case Index(doc) =>
      if Get(doc, ID).JStr? then Ok(docs[Get(doc, ID).s := Sent(doc, dropNulls)]) else Err(NotWritten)
    case Update(key, doc) =>
      if !Text.TrimsToEmpty(key) && key in docs then Ok(docs[key := MergeIn(docs[key], Sent(doc, dropNulls))])
      else Err(NotWritten)
    case Delete(key) =>
      if !Text.TrimsToEmpty(key) && key in docs then Ok(docs - {key}) else Err(NotWritten)
  }

  class ElasticStore {
    const engine: Elastic.Engine
    const dropNulls: bool
    var docs: Docs
    /** The hit counter every search overwrites and its caller reads afterwards. */
    var totalHits: nat

    constructor (engine: Elastic.Engine, dropNulls: bool)
      ensures docs == map[] && this.engine == engine && this.dropNulls == dropNulls
    {
      this.engine, this.dropNulls, docs, totalHits := engine, dropNulls, map[], 0;
    }

    /** Any one of the matching documents, without its summary; the counter tells how many there were. */
    method GetSingleDocument(q: QueryModel) returns (r: Result<Option<Hit>, StoreError>)
      modifies this`totalHits
      ensures Lower(q).Err? ==> r == Err(BadQuery) && totalHits == old(totalHits)
      ensures Lower(q).Ok? ==> r.Ok? && totalHits == |Hits(docs, q, engine)|
      ensures Lower(q).Ok? ==> (r.value.None? <==> Hits(docs, q, engine) == {})
      ensures Lower(q).Ok? && r.value.Some? ==>
                && r.value.value.key in Hits(docs, q, engine)
                && r.value.value.source == docs[r.value.value.key] - {SUMMARY}
    {
      if Lower(q).Err? {
        return Err(BadQuery);
      }
      var hits := Hits(docs, q, engine);
      totalHits := |hits|;
      if hits == {} {
        return Ok(None);
      }
      var key :| key in hits;
      return Ok(Some(Hit(key, docs[key] - {SUMMARY})));
    }

    method Perform(w: Write) returns (r: Result<(), StoreError>)
      modifies this`docs
      ensures match Commit(old(docs), w, dropNulls)
              case Ok(after) => r.Ok? && docs == after
              case Err(e) => r == Err(e) && docs == old(docs)
    {
      var after :- Commit(docs, w, dropNulls);
      docs := after;
      return Ok(());
    }
  }
}
