/** The catalogue cache: refreshed as a whole, filled lazily per id, and emptied by eviction and expiry. */
module CatalogueCache {
  import opened Json

  /** A catalogue document; the id may be missing. */
  datatype Doc = Doc(id: Option<string>, body: Object)

  type Cache = map<string, Doc>

  // ---------------------------------------------------------------- handlers

  /** Puts the documents under their own ids, up to the first without an id, whose put throws. */
  function Filled(cache: Cache, docs: seq<Doc>): Cache
    decreases |docs|
  {
    if docs == [] || docs[0].id.None? then cache
    else Filled(cache[docs[0].id.value := docs[0]], docs[1..])
  }

  /** A refresh without an answer leaves the cache alone; with one it starts over. */
  function Refreshed(cache: Cache, answer: Option<seq<Doc>>): Cache {
    if answer.None? then cache else Filled(map[], answer.value)
  }

  /** The answer to a lookup is put under the id asked for; of several documents the last one stays. */
  function LookedUp(cache: Cache, id: string, answer: Option<seq<Doc>>): Cache {
    if answer.None? || answer.value == [] then cache
    else cache[id := answer.value[|answer.value| - 1]]
  }

  datatype Fault = NotFound

  class CatalogueService {
    var catalogueCache: Cache

    constructor ()
      ensures catalogueCache == map[]
    {
      catalogueCache := map[];
    }

    method OnRefreshAnswer(answer: Option<seq<Doc>>)
      modifies this
      ensures catalogueCache == Refreshed(old(catalogueCache), answer)
    {
      if answer.None? {
        return;
      }
      catalogueCache := map[];
      var docs := answer.value;
      var i := 0;
      while i < |docs| && docs[i].id.Some?
        invariant 0 <= i <= |docs|
        invariant Filled(map[], docs) == Filled(catalogueCache, docs[i..])
      {
        catalogueCache := catalogueCache[docs[i].id.value := docs[i]];
        i := i + 1;
      }
    }

    /** The continuation of a lookup that missed. */
    method OnLookupAnswer(id: string, answer: Option<seq<Doc>>) returns (r: Result<Doc, Fault>)
      modifies this
      ensures catalogueCache == LookedUp(old(catalogueCache), id, answer)
      ensures r == if answer.Some? && id in catalogueCache then Ok(catalogueCache[id]) else Err(NotFound)
    {
      if answer.None? {
        return Err(NotFound);
      }
      var docs := answer.value;
      for i := 0 to |docs|
        invariant catalogueCache == LookedUp(old(catalogueCache), id, Some(docs[..i]))
      {
        catalogueCache := catalogueCache[id := docs[i]];
      }
      assert docs[..|docs|] == docs;
      return if id in catalogueCache then Ok(catalogueCache[id]) else Err(NotFound);
    }

    method FetchFromCache(id: string) returns (r: Option<Doc>)
      ensures r == if id in catalogueCache then Some(catalogueCache[id]) else None
    {
      r := if id in catalogueCache then Some(catalogueCache[id]) else None;
    }

    /** Eviction and expiry. */
    method Drop(id: string)
      modifies this
      ensures catalogueCache == old(catalogueCache) - {id}
    {
      catalogueCache := catalogueCache - {id};
    }
  }

  /** How many documents are put: all of them, or those before the first without an id. */
  ghost predicate PutsFirst(docs: seq<Doc>, n: nat) {
    && n <= |docs| && (forall i :: 0 <= i < n ==> docs[i].id.Some?)
    && (n < |docs| ==> docs[n].id.None?)
  }

  /** The last of the first n documents with the id. */
  ghost predicate IsLastWith(docs: seq<Doc>, n: nat, id: string, d: Doc)
    requires n <= |docs|
  {
    exists i :: 0 <= i < n && docs[i] == d && d.id == Some(id) && forall j :: i < j < n ==> docs[j].id != Some(id)
  }

  ghost predicate Lists(docs: seq<Doc>, n: nat, id: string)
    requires n <= |docs|
  {
    exists i :: 0 <= i < n && docs[i].id == Some(id)
  }

  lemma ListsInRest(docs: seq<Doc>, n: nat, id: string)
    requires 0 < n <= |docs|
    ensures Lists(docs, n, id) <==> docs[0].id == Some(id) || Lists(docs[1..], n - 1, id)
  {
    if Lists(docs, n, id) {
      var i :| 0 <= i < n && docs[i].id == Some(id);
      assert i > 0 ==> docs[1..][i - 1] == docs[i];
    }
    if Lists(docs[1..], n - 1, id) {
      var i :| 0 <= i < n - 1 && docs[1..][i].id == Some(id);
      assert docs[i + 1].id == Some(id);
    }
  }

  lemma LastInRest(docs: seq<Doc>, n: nat, id: string, d: Doc)
    requires 0 < n <= |docs| && IsLastWith(docs[1..], n - 1, id, d)
    ensures IsLastWith(docs, n, id, d)
  {
    var rest := docs[1..];
    var i :| 0 <= i < n - 1 && rest[i] == d && d.id == Some(id) && forall j :: i < j < n - 1 ==> rest[j].id != Some(id);
    assert docs[i + 1] == d;
    forall j | i + 1 < j < n
      ensures docs[j].id != Some(id)
    {
      assert rest[j - 1] == docs[j];
    }
  }

  lemma FirstIsLast(docs: seq<Doc>, n: nat, id: string)
    requires 0 < n <= |docs| && docs[0].id == Some(id) && !Lists(docs[1..], n - 1, id)
    ensures IsLastWith(docs, n, id, docs[0])
  {
    forall j | 0 < j < n
      ensures docs[j].id != Some(id)
    {
      assert docs[1..][j - 1] == docs[j];
    }
  }

  lemma {:induction false} FilledExactly(cache: Cache, docs: seq<Doc>, n: nat, id: string)
    requires PutsFirst(docs, n)
    ensures id in Filled(cache, docs) <==> id in cache || Lists(docs, n, id)
    ensures Lists(docs, n, id) ==> id in Filled(cache, docs) && IsLastWith(docs, n, id, Filled(cache, docs)[id])
    ensures id in cache && !Lists(docs, n, id) ==> id in Filled(cache, docs) && Filled(cache, docs)[id] == cache[id]
    decreases |docs|
  {
    if n == 0 {
    } else {
      var more := cache[docs[0].id.value := docs[0]];
      FilledExactly(more, docs[1..], n - 1, id);
      ListsInRest(docs, n, id);
      if Lists(docs[1..], n - 1, id) {
        LastInRest(docs, n, id, Filled(more, docs[1..])[id]);
      } else if docs[0].id == Some(id) {
        FirstIsLast(docs, n, id);
      }
    }
  }

  /** An answered refresh starts over: an id is cached afterwards exactly when one of the documents put has
      it, and the last of those documents is its entry. Without an answer nothing changes. */
  lemma RefreshedExactly(cache: Cache, answer: Option<seq<Doc>>, n: nat, id: string)
    requires answer.Some? ==> PutsFirst(answer.value, n)
    ensures answer.None? ==> Refreshed(cache, answer) == cache
    ensures answer.Some? ==>
              && (id in Refreshed(cache, answer) <==> Lists(answer.value, n, id))
              && (id in Refreshed(cache, answer) ==> IsLastWith(answer.value, n, id, Refreshed(cache, answer)[id]))
  {
    if answer.Some? {
      FilledExactly(map[], answer.value, n, id);
    }
  }

  /** A lookup puts the last document of its answer under the id asked for and leaves every other id alone. */
  lemma LookedUpExactly(cache: Cache, id: string, answer: Option<seq<Doc>>, other: string)
    ensures other != id || answer.None? || answer.value == [] ==>
              && (other in LookedUp(cache, id, answer) <==> other in cache)
              && (other in cache ==> LookedUp(cache, id, answer)[other] == cache[other])
    ensures forall docs: seq<Doc>, d: Doc :: answer == Some(docs + [d]) ==>
              id in LookedUp(cache, id, answer) && LookedUp(cache, id, answer)[id] == d
  {
  }

  // ---------------------------------------------------------------- the remote catalogue and its schedules

  /** The remote catalogue at one moment, unique by id. */
  type Remote = map<string, Doc>

  ghost predicate WellIdentified(r: Remote) {
    forall id | id in r :: r[id].id == Some(id)
  }

  /** A direct lookup at the remote catalogue. */
  ghost function Direct(r: Remote, id: string): seq<Doc> {
    if id in r then [r[id]] else []
  }

  /** A refresh answer lists documents of the catalogue as it was served, in any order and number. */
  ghost predicate ServedFrom(r: Remote, docs: seq<Doc>) {
    forall d | d in docs :: d.id.Some? && d.id.value in r && r[d.id.value] == d
  }

  datatype Message =
    | RefreshReply(docs: Option<seq<Doc>>)
    | LookupReply(id: string, docs: Option<seq<Doc>>)

  /** The past of the remote catalogue, the cache and the answers still under way; several equal answers
      may be under way at once. */
  datatype World = World(past: seq<Remote>, cache: Cache, inFlight: multiset<Message>)

  datatype Event =
    | RemoteChanges(remote: Remote)
    | ServeRefresh(answer: Option<seq<Doc>>)
    | ServeLookup(id: string, answered: bool)
    | Deliver(m: Message, reply: Option<Doc>)
    | Hit(id: string, cached: Doc)
    | Evict(id: string)

  ghost predicate Next(w: World, ev: Event, w': World)
    requires w.past != []
  {
    var now := w.past[|w.past| - 1];
    match ev
    case RemoteChanges(remote) => WellIdentified(remote) && w' == w.(past := w.past + [remote])
    case ServeRefresh(answer) =>
      && (answer.Some? ==> ServedFrom(now, answer.value))
      && w' == w.(inFlight := w.inFlight + multiset{RefreshReply(answer)})
    case ServeLookup(id, answered) =>
      w' == w.(inFlight := w.inFlight + multiset{LookupReply(id, if answered then Some(Direct(now, id)) else None)})
    case Deliver(m, returned) =>
      && m in w.inFlight
      && match m {
           case RefreshReply(docs) =>
             returned == None && w' == w.(cache := Refreshed(w.cache, docs), inFlight := w.inFlight - multiset{m})
           case LookupReply(id, docs) =>
             && w' == w.(cache := LookedUp(w.cache, id, docs), inFlight := w.inFlight - multiset{m})
             && returned == if docs.Some? && id in w'.cache then Some(w'.cache[id]) else None
         }
    case Hit(id, returned) => id in w.cache && returned == w.cache[id] && w' == w
    case Evict(id) => w' == w.(cache := w.cache - {id})
  }

  /** The document was the remote catalogue's value for the id at some moment of the past. */
  ghost predicate WasRemote(past: seq<Remote>, id: string, d: Doc) {
    exists t :: 0 <= t < |past| && id in past[t] && past[t][id] == d
  }

  ghost predicate Genuine(past: seq<Remote>, m: Message) {
    match m
    case RefreshReply(docs) =>
      docs.Some? ==> forall d | d in docs.value :: d.id.Some? && WasRemote(past, d.id.value, d)
    case LookupReply(id, docs) => docs.Some? ==> forall d | d in docs.value :: WasRemote(past, id, d)
  }

  ghost predicate Inv(w: World) {
    && w.past != []
    && (forall r | r in w.past :: WellIdentified(r))
    && (forall id | id in w.cache :: WasRemote(w.past, id, w.cache[id]))
    && (forall m | m in w.inFlight :: Genuine(w.past, m))
  }

  lemma PastGrows(past: seq<Remote>, r: Remote, id: string, d: Doc)
    requires WasRemote(past, id, d)
    ensures WasRemote(past + [r], id, d)
  {
    var t :| 0 <= t < |past| && id in past[t] && past[t][id] == d;
    assert (past + [r])[t] == past[t];
  }

  lemma {:induction false} FilledIsGenuine(past: seq<Remote>, cache: Cache, docs: seq<Doc>)
    requires forall id | id in cache :: WasRemote(past, id, cache[id])
    requires forall d | d in docs :: d.id.Some? && WasRemote(past, d.id.value, d)
    ensures forall id | id in Filled(cache, docs) :: WasRemote(past, id, Filled(cache, docs)[id])
    decreases |docs|
  {
    if docs == [] {
    } else {
      assert docs[0] in docs;
      FilledIsGenuine(past, cache[docs[0].id.value := docs[0]], docs[1..]);
    }
  }

  lemma ChangeKeepsInv(w: World, remote: Remote)
    requires Inv(w) && WellIdentified(remote)
    ensures Inv(w.(past := w.past + [remote]))
  {
    forall id | id in w.cache {
      PastGrows(w.past, remote, id, w.cache[id]);
    }
    forall m | m in w.inFlight
      ensures Genuine(w.past + [remote], m)
    {
      if m.docs.Some? {
        forall d | d in m.docs.value {
          PastGrows(w.past, remote, if m.RefreshReply? then d.id.value else m.id, d);
        }
      }
    }
  }

  lemma ServedIsGenuine(w: World, answer: seq<Doc>)
    requires w.past != [] && ServedFrom(w.past[|w.past| - 1], answer)
    ensures Genuine(w.past, RefreshReply(Some(answer)))
  {
    forall d | d in answer
      ensures WasRemote(w.past, d.id.value, d)
    {
      var t := |w.past| - 1;
      assert d.id.value in w.past[t] && w.past[t][d.id.value] == d;
    }
  }

  lemma DirectIsGenuine(w: World, id: string)
    requires w.past != []
    ensures Genuine(w.past, LookupReply(id, Some(Direct(w.past[|w.past| - 1], id))))
  {
    var t := |w.past| - 1;
    if id in w.past[t] {
      assert WasRemote(w.past, id, w.past[t][id]);
    }
  }

  lemma AnswersStayGenuine(w: World, m: Message)
    requires Inv(w) && Genuine(w.past, m)
    ensures Inv(w.(inFlight := w.inFlight + multiset{m}))
  {
    assert forall x | x in w.inFlight + multiset{m} :: x in w.inFlight || x == m;
  }

  lemma RefreshKeepsInv(w: World, docs: Option<seq<Doc>>)
    requires Inv(w) && RefreshReply(docs) in w.inFlight
    ensures Inv(w.(cache := Refreshed(w.cache, docs), inFlight := w.inFlight - multiset{RefreshReply(docs)}))
  {
    assert Genuine(w.past, RefreshReply(docs));
    if docs.Some? {
      FilledIsGenuine(w.past, map[], docs.value);
    }
  }

  lemma LookupKeepsInv(w: World, id: string, docs: Option<seq<Doc>>)
    requires Inv(w) && LookupReply(id, docs) in w.inFlight
    ensures Inv(w.(cache := LookedUp(w.cache, id, docs), inFlight := w.inFlight - multiset{LookupReply(id, docs)}))
  {
    assert Genuine(w.past, LookupReply(id, docs));
  }

  lemma NextKeepsInv(w: World, ev: Event, w': World)
    requires Inv(w) && Next(w, ev, w')
    ensures Inv(w')
  {
    match ev {
      case RemoteChanges(remote) => ChangeKeepsInv(w, remote);
      case ServeRefresh(answer) =>
        if answer.Some? {
          ServedIsGenuine(w, answer.value);
        }
        AnswersStayGenuine(w, RefreshReply(answer));
      case ServeLookup(id, answered) =>
        DirectIsGenuine(w, id);
        AnswersStayGenuine(w, LookupReply(id, if answered then Some(Direct(w.past[|w.past| - 1], id)) else None));
      case Deliver(RefreshReply(docs), _) => RefreshKeepsInv(w, docs);
      case Deliver(LookupReply(id, docs), _) => LookupKeepsInv(w, id, docs);
      case Hit(_, _) =>
      case Evict(_) =>
    }
  }

  ghost predicate Run(ws: seq<World>, evs: seq<Event>) {
    && |ws| == |evs| + 1
    && ws[0].past != [] && (forall r | r in ws[0].past :: WellIdentified(r))
    && ws[0].cache == map[] && ws[0].inFlight == multiset{}
    && forall i :: 0 <= i < |evs| ==> ws[i].past != [] && Next(ws[i], evs[i], ws[i + 1])
  }

  lemma {:induction false} RunKeepsInv(ws: seq<World>, evs: seq<Event>, n: nat)
    requires Run(ws, evs) && n < |ws|
    ensures Inv(ws[n])
  {
    if n == 0 {
    } else {
      RunKeepsInv(ws, evs, n - 1);
      NextKeepsInv(ws[n - 1], evs[n - 1], ws[n]);
    }
  }

  ghost predicate ServedAt(past: seq<Remote>, docs: seq<Doc>, t: nat) {
    t < |past| && ServedFrom(past[t], docs)
  }

  /** Every refresh answer under way was served from the catalogue at one moment of the past. */
  ghost predicate RefreshesServed(w: World) {
    forall docs: seq<Doc> :: RefreshReply(Some(docs)) in w.inFlight ==> exists t: nat :: ServedAt(w.past, docs, t)
  }

  lemma NextKeepsServed(w: World, ev: Event, w': World)
    requires w.past != [] && RefreshesServed(w) && Next(w, ev, w')
    ensures RefreshesServed(w')
  {
    forall docs: seq<Doc> | RefreshReply(Some(docs)) in w'.inFlight
      ensures exists t: nat :: ServedAt(w'.past, docs, t)
    {
      if RefreshReply(Some(docs)) in w.inFlight {
        var t: nat :| ServedAt(w.past, docs, t);
        assert w'.past[t] == w.past[t];
        assert ServedAt(w'.past, docs, t);
      } else {
        assert ServedAt(w'.past, docs, |w.past| - 1);
      }
    }
  }

  lemma {:induction false} RunKeepsServed(ws: seq<World>, evs: seq<Event>, n: nat)
    requires Run(ws, evs) && n < |ws|
    ensures RefreshesServed(ws[n])
  {
    if n == 0 {
    } else {
      RunKeepsServed(ws, evs, n - 1);
      NextKeepsServed(ws[n - 1], evs[n - 1], ws[n]);
    }
  }

  /** The cache holds values of this catalogue only, for exactly the ids listed. */
  ghost predicate Shows(cache: Cache, r: Remote, docs: seq<Doc>) {
    && (forall id :: id in cache <==> Lists(docs, |docs|, id))
    && (forall id | id in cache :: id in r && r[id] == cache[id])
  }

  lemma RefreshShows(r: Remote, docs: seq<Doc>, cache: Cache)
    requires ServedFrom(r, docs)
    ensures Shows(Refreshed(cache, Some(docs)), r, docs)
  {
    forall i | 0 <= i < |docs|
      ensures docs[i].id.Some?
    {
      assert docs[i] in docs;
    }
    forall id
      ensures id in Refreshed(cache, Some(docs)) <==> Lists(docs, |docs|, id)
      ensures id in Refreshed(cache, Some(docs)) ==> id in r && r[id] == Refreshed(cache, Some(docs))[id]
    {
      RefreshedExactly(cache, Some(docs), |docs|, id);
      if id in Refreshed(cache, Some(docs)) {
        assert Refreshed(cache, Some(docs))[id] in docs;
      }
    }
  }

  /** Right after a refresh answer is delivered, whatever was cached before, the cache shows the documents
      listed, all of them as one catalogue of the past had them: the one that served the refresh. */
  lemma RefreshShowsItsCatalogue(ws: seq<World>, evs: seq<Event>, n: nat, docs: seq<Doc>) returns (t: nat)
    requires Run(ws, evs) && n < |evs| && evs[n] == Deliver(RefreshReply(Some(docs)), None)
    ensures ServedAt(ws[n + 1].past, docs, t) && Shows(ws[n + 1].cache, ws[n + 1].past[t], docs)
  {
    RunKeepsServed(ws, evs, n);
    assert Next(ws[n], evs[n], ws[n + 1]);
    t :| ServedAt(ws[n].past, docs, t);
    RefreshShows(ws[n].past[t], docs, ws[n].cache);
  }

  /** A refresh that lists the whole catalogue that served it leaves exactly that catalogue in the cache. */
  lemma FullRefreshIsTheCatalogue(r: Remote, docs: seq<Doc>, cache: Cache)
    requires WellIdentified(r) && ServedFrom(r, docs) && forall id | id in r :: r[id] in docs
    ensures Refreshed(cache, Some(docs)) == r
  {
    RefreshShows(r, docs, cache);
    forall id | id in r
      ensures Lists(docs, |docs|, id)
    {
      var i :| 0 <= i < |docs| && docs[i] == r[id];
    }
  }

  /** The id a successful fetch was asked for, and the document it returned. */
  ghost predicate Returns(ev: Event, id: string, d: Doc) {
    || ev == Hit(id, d)
    || (ev.Deliver? && ev.m.LookupReply? && ev.m.id == id && ev.reply == Some(d))
  }

  /** Under every schedule of refreshes, lookups, evictions and remote changes, a document returned for an id
      was the remote catalogue's value for that id at an earlier moment of the run, and it carries that id. */
  lemma ReturnedWasRemote(ws: seq<World>, evs: seq<Event>, n: nat, id: string, d: Doc)
    requires Run(ws, evs) && n < |evs| && Returns(evs[n], id, d)
    ensures WasRemote(ws[n + 1].past, id, d) && d.id == Some(id)
  {
    RunKeepsInv(ws, evs, n + 1);
    RunKeepsInv(ws, evs, n);
    assert Next(ws[n], evs[n], ws[n + 1]);
    var t :| 0 <= t < |ws[n + 1].past| && id in ws[n + 1].past[t] && ws[n + 1].past[t][id] == d;
    assert ws[n + 1].past[t] in ws[n + 1].past;
  }

  ghost predicate NeverChanged(past: seq<Remote>, remote: Remote) {
    forall t | 0 <= t < |past| :: past[t] == remote
  }

  /** Against a fixed catalogue the cache is transparent: a successful fetch returns what a direct lookup
      would, and every cached document sits under its own id. */
  lemma CacheIsTransparent(ws: seq<World>, evs: seq<Event>, n: nat, remote: Remote, id: string, d: Doc)
    requires Run(ws, evs) && n < |evs| && Returns(evs[n], id, d)
    requires NeverChanged(ws[n + 1].past, remote)
    ensures Direct(remote, id) == [d]
    ensures forall k | k in ws[n + 1].cache ::
              ws[n + 1].cache[k].id == Some(k) && Direct(remote, k) == [ws[n + 1].cache[k]]
  {
    ReturnedWasRemote(ws, evs, n, id, d);
    RunKeepsInv(ws, evs, n + 1);
    var w := ws[n + 1];
    var t :| 0 <= t < |w.past| && id in w.past[t] && w.past[t][id] == d;
    assert w.past[t] in w.past;
    forall k | k in w.cache
      ensures w.cache[k].id == Some(k) && Direct(remote, k) == [w.cache[k]]
    {
      assert WasRemote(w.past, k, w.cache[k]);
      var u :| 0 <= u < |w.past| && k in w.past[u] && w.past[u][k] == w.cache[k];
      assert w.past[u] in w.past;
    }
  }

  /** A fetch that asked the remote catalogue fails exactly when no answer came, or the answer was empty
      and the cache had nothing under the id. */
  lemma FetchFailsExactly(w: World, id: string, docs: Option<seq<Doc>>, returned: Option<Doc>, w': World)
    requires w.past != [] && Next(w, Deliver(LookupReply(id, docs), returned), w')
    ensures returned.None? <==> docs.None? || (docs.value == [] && id !in w.cache)
    ensures docs.Some? && docs.value != [] ==> returned == Some(docs.value[|docs.value| - 1])
  {
  }
}
