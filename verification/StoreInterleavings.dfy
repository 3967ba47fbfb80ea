/** Requests whose steps interleave: validation, existence check and write happen at different moments. */
module StoreInterleavings {
  import opened Fields
  import opened Json
  import opened ItemStore
  import opened ItemService
  import opened SampleRequests
  import opened StoreSteps
  import Elastic
  import Factory = ItemFactory
  import Text

  datatype Task =
    | ToCheck(post: bool, item: Object)
    | ToWrite(write: Write)

  datatype Machine = Machine(docs: Docs, tasks: multiset<Task>)

  datatype Event =
    | Validate(kind: Factory.Kind, post: bool, body: Object, stamp: Stamp, lookup: Lookup)
    | Check(task: Task)
    | CheckDelete(id: string)
    | Commit(task: Task)

  /** The item a request is validated and parsed into. */
  function Validated(ev: Event, text: Json -> string): Result<Object, Fault>
    requires ev.Validate?
  {
    ItemOf(ev.kind, ev.post, ev.body, ev.stamp, ev.lookup, text)
  }

  function CheckTask(docs: Docs, task: Task, e: Elastic.Engine): Result<Write, Fault>
    requires task.ToCheck?
  {
    if task.post then CreateCheck(docs, task.item, e) else UpdateCheck(docs, task.item, e)
  }

  /** One atomic handler; a task that fails is dropped. */
  ghost predicate Next(m: Machine, ev: Event, m': Machine, env: Env) {
    match ev
    case Validate(kind, post, body, stamp, lookup) =>
      && (Prepared(body, stamp, env.text).Ok? ==>
            var name := GetString(Prepared(body, stamp, env.text).value, NAME, env.text).value;
            LookupAnswers(m.docs, Factory.TypeName(kind), name, env.e, env.text, lookup))
      && var item := Validated(ev, env.text);
         m' == if item.Ok? then m.(tasks := m.tasks + multiset{ToCheck(post, item.value)}) else m
    case Check(task) =>
      && task in m.tasks && task.ToCheck?
      && var write := CheckTask(m.docs, task, env.e);
         m' == m.(tasks := m.tasks - multiset{task} + if write.Ok? then multiset{ToWrite(write.value)} else multiset{})
    case CheckDelete(id) =>
      var write := DeleteCheck(m.docs, id, env.e);
      m' == if write.Ok? then m.(tasks := m.tasks + multiset{ToWrite(write.value)}) else m
    case Commit(task) =>
      && task in m.tasks && task.ToWrite?
      && var after := ItemStore.Commit(m.docs, task.write, env.dropNulls);
         m' == Machine(if after.Ok? then after.value else m.docs, m.tasks - multiset{task})
  }

  ghost predicate KeyedMachine(m: Machine) {
    Keyed(m.docs) && forall t | t in m.tasks && t.ToWrite? :: KeyedWrite(t.write)
  }

  lemma CommitStepKeepsKeys(m: Machine, task: Task, m': Machine, env: Env)
    requires KeyedMachine(m) && Next(m, Commit(task), m', env)
    ensures KeyedMachine(m')
  {
    if ItemStore.Commit(m.docs, task.write, env.dropNulls).Ok? {
      CommitKeepsKeys(m.docs, task.write, env.dropNulls);
    }
  }

  lemma CheckedIsKeyed(docs: Docs, task: Task, e: Elastic.Engine)
    requires task.ToCheck? && CheckTask(docs, task, e).Ok?
    ensures KeyedWrite(CheckTask(docs, task, e).value)
  {
  }

  lemma CheckStepKeepsKeys(m: Machine, task: Task, m': Machine, env: Env)
    requires KeyedMachine(m) && Next(m, Check(task), m', env)
    ensures KeyedMachine(m')
  {
    if CheckTask(m.docs, task, env.e).Ok? {
      CheckedIsKeyed(m.docs, task, env.e);
      assert forall t | t in m'.tasks :: t in m.tasks || t == ToWrite(CheckTask(m.docs, task, env.e).value);
    }
  }

  lemma NextKeepsKeys(m: Machine, ev: Event, m': Machine, env: Env)
    requires KeyedMachine(m) && Next(m, ev, m', env)
    ensures KeyedMachine(m')
  {
    match ev {
      case Commit(task) => CommitStepKeepsKeys(m, task, m', env);
      case Check(task) => CheckStepKeepsKeys(m, task, m', env);
      case _ =>
    }
  }

  ghost predicate StepAt(ms: seq<Machine>, evs: seq<Event>, i: nat, env: Env)
    requires |ms| == |evs| + 1 && i < |evs|
  {
    Next(ms[i], evs[i], ms[i + 1], env)
  }

  ghost predicate Interleaving(ms: seq<Machine>, evs: seq<Event>, env: Env) {
    && |ms| == |evs| + 1 && ms[0] == Machine(map[], multiset{})
    && forall i :: 0 <= i < |evs| ==> StepAt(ms, evs, i, env)
  }

  /** In every interleaving of checks and writes, each stored document's key is its id. */
  lemma {:induction false} InterleavingsStayKeyed(ms: seq<Machine>, evs: seq<Event>, env: Env, n: nat)
    requires Interleaving(ms, evs, env) && n < |ms|
    ensures KeyedMachine(ms[n])
  {
    if n == 0 {
    } else {
      InterleavingsStayKeyed(ms, evs, env, n - 1);
      assert StepAt(ms, evs, n - 1, env);
      NextKeepsKeys(ms[n - 1], evs[n - 1], ms[n], env);
    }
  }

  // ---------------------------------------------------------------- names under interleaving

  /** The validations of the interleaving are all of creates asked for in the set; what their lookups
      answered is up to the run. */
  ghost predicate DrawnFrom(evs: seq<Event>, asked: set<Event>) {
    forall ev | ev in evs && ev.Validate? :: Asked(ev, asked)
  }

  ghost predicate Asked(ev: Event, asked: set<Event>)
    requires ev.Validate?
  {
    ev.post && ev.(lookup := Missing) in asked
  }

  predicate AreCreates(asked: set<Event>) {
    forall ev | ev in asked :: ev.Validate? && ev.post && ev.lookup == Missing
  }

  /** The state is the end of an interleaving of these creates and of any deletes. */
  ghost predicate Reaches(asked: set<Event>, m: Machine, env: Env) {
    exists ms, evs :: Interleaving(ms, evs, env) && DrawnFrom(evs, asked) && ms[|ms| - 1] == m
  }

  ghost predicate NamesStayUnique(asked: set<Event>, env: Env) {
    forall m :: Reaches(asked, m, env) ==> UniqueNames(m.docs)
  }

  predicate Storable(p: Object) {
    Get(p, ID).JStr? && !Text.IsBlank(Get(p, ID).s)
  }

  /** The item is what one of the creates makes of its body. */
  ghost predicate Planned(asked: set<Event>, p: Object, env: Env) {
    Storable(p) && exists ev :: ev in asked && ev.Validate? && Validated(ev, env.text) == Ok(p)
  }

  /** No two of the creates make items of one kind and name with different ids. */
  ghost predicate NoClash(asked: set<Event>, env: Env) {
    forall p, q | Planned(asked, p, env) && Planned(asked, q, env) && SameItem(p, q) :: Get(p, ID) == Get(q, ID)
  }

  /** A create that is let through makes the same item whatever its lookup answered. */
  lemma LookupDoesNotMatter(ev: Event, text: Json -> string)
    requires ev.Validate? && ev.post && Validated(ev, text).Ok?
    ensures Validated(ev.(lookup := Missing), text) == Validated(ev, text)
  {
  }

  ghost predicate PlannedTask(asked: set<Event>, t: Task, env: Env) {
    match t
    case ToCheck(post, item) => post && (Storable(item) ==> Planned(asked, item, env))
    case ToWrite(write) => !write.Update? && (write.Index? ==> Planned(asked, write.doc, env))
  }

  ghost predicate PlannedDoc(asked: set<Event>, key: string, d: Object, env: Env) {
    exists p :: Planned(asked, p, env) && Get(p, ID) == JStr(key) && d == Sent(p, env.dropNulls)
  }

  /** Every document and every step under way belongs to one of the creates. */
  ghost predicate PlannedMachine(asked: set<Event>, m: Machine, env: Env) {
    && (forall k | k in m.docs :: PlannedDoc(asked, k, m.docs[k], env))
    && (forall t | t in m.tasks :: PlannedTask(asked, t, env))
  }

  lemma ValidateStaysPlanned(asked: set<Event>, m: Machine, ev: Event, m': Machine, env: Env)
    requires PlannedMachine(asked, m, env) && Next(m, ev, m', env)
    requires ev.Validate? && Asked(ev, asked)
    ensures PlannedMachine(asked, m', env)
  {
    if Validated(ev, env.text).Ok? {
      var item := Validated(ev, env.text).value;
      LookupDoesNotMatter(ev, env.text);
      assert PlannedTask(asked, ToCheck(true, item), env);
      assert forall t | t in m'.tasks :: t in m.tasks || t == ToCheck(true, item);
    }
  }

  lemma CheckStaysPlanned(asked: set<Event>, m: Machine, task: Task, m': Machine, env: Env)
    requires PlannedMachine(asked, m, env) && Next(m, Check(task), m', env)
    ensures PlannedMachine(asked, m', env)
  {
    assert PlannedTask(asked, task, env);
    var write := CheckTask(m.docs, task, env.e);
    if write.Ok? {
      assert PlannedTask(asked, ToWrite(write.value), env);
      assert forall t | t in m'.tasks :: t in m.tasks || t == ToWrite(write.value);
    } else {
      assert forall t | t in m'.tasks :: t in m.tasks;
    }
  }

  lemma CheckDeleteStaysPlanned(asked: set<Event>, m: Machine, id: string, m': Machine, env: Env)
    requires PlannedMachine(asked, m, env) && Next(m, CheckDelete(id), m', env)
    ensures PlannedMachine(asked, m', env)
  {
    var write := DeleteCheck(m.docs, id, env.e);
    if write.Ok? {
      assert PlannedTask(asked, ToWrite(write.value), env);
      assert forall t | t in m'.tasks :: t in m.tasks || t == ToWrite(write.value);
    }
  }

  lemma CommitPlannedDocs(asked: set<Event>, docs: Docs, w: Write, env: Env)
    requires forall k | k in docs :: PlannedDoc(asked, k, docs[k], env)
    requires PlannedTask(asked, ToWrite(w), env) && ItemStore.Commit(docs, w, env.dropNulls).Ok?
    ensures var after := ItemStore.Commit(docs, w, env.dropNulls).value;
            forall k | k in after :: PlannedDoc(asked, k, after[k], env)
  {
    match w {
      case Index(doc) => assert PlannedDoc(asked, Get(doc, ID).s, Sent(doc, env.dropNulls), env);
      case Delete(_) =>
    }
  }

  lemma CommitStaysPlanned(asked: set<Event>, m: Machine, task: Task, m': Machine, env: Env)
    requires PlannedMachine(asked, m, env) && Next(m, Commit(task), m', env)
    ensures PlannedMachine(asked, m', env)
  {
    assert PlannedTask(asked, task, env);
    assert forall t | t in m'.tasks :: t in m.tasks;
    if ItemStore.Commit(m.docs, task.write, env.dropNulls).Ok? {
      CommitPlannedDocs(asked, m.docs, task.write, env);
    }
  }

  lemma NextStaysPlanned(asked: set<Event>, m: Machine, ev: Event, m': Machine, env: Env)
    requires PlannedMachine(asked, m, env) && Next(m, ev, m', env)
    requires ev.Validate? ==> Asked(ev, asked)
    ensures PlannedMachine(asked, m', env)
  {
    match ev {
      case Validate(_, _, _, _, _) => ValidateStaysPlanned(asked, m, ev, m', env);
      case Check(task) => CheckStaysPlanned(asked, m, task, m', env);
      case CheckDelete(id) => CheckDeleteStaysPlanned(asked, m, id, m', env);
      case Commit(task) => CommitStaysPlanned(asked, m, task, m', env);
    }
  }

  lemma {:induction false} InterleavingStaysPlanned(asked: set<Event>, ms: seq<Machine>, evs: seq<Event>, env: Env,
                                                    n: nat)
    requires Interleaving(ms, evs, env) && DrawnFrom(evs, asked) && n < |ms|
    ensures PlannedMachine(asked, ms[n], env)
  {
    if n == 0 {
    } else {
      InterleavingStaysPlanned(asked, ms, evs, env, n - 1);
      assert evs[n - 1] in evs && StepAt(ms, evs, n - 1, env);
      NextStaysPlanned(asked, ms[n - 1], evs[n - 1], ms[n], env);
    }
  }

  lemma SameItemSent(p: Object, q: Object, dropNulls: bool)
    requires SameItem(Sent(p, dropNulls), Sent(q, dropNulls))
    ensures SameItem(p, q)
  {
    SentIsSameItem(p, dropNulls);
    SentIsSameItem(q, dropNulls);
  }

  lemma PlannedPair(asked: set<Event>, j: string, a: Object, k: string, b: Object, env: Env)
    requires PlannedDoc(asked, j, a, env) && PlannedDoc(asked, k, b, env)
    requires NoClash(asked, env) && SameItem(a, b)
    ensures j == k
  {
    var p :| Planned(asked, p, env) && Get(p, ID) == JStr(j) && a == Sent(p, env.dropNulls);
    var q :| Planned(asked, q, env) && Get(q, ID) == JStr(k) && b == Sent(q, env.dropNulls);
    SameItemSent(p, q, env.dropNulls);
  }

  lemma PlannedNamesAreUnique(asked: set<Event>, m: Machine, env: Env)
    requires PlannedMachine(asked, m, env) && NoClash(asked, env)
    ensures UniqueNames(m.docs)
  {
    forall j, k | j in m.docs && k in m.docs && SameItem(m.docs[j], m.docs[k])
      ensures j == k
    {
      PlannedPair(asked, j, m.docs[j], k, m.docs[k], env);
    }
  }

  lemma SentIsSameItem(p: Object, dropNulls: bool)
    ensures SameItem(Sent(p, dropNulls), p)
  {
    SentKeeps(p, dropNulls, TYPE);
    SentKeeps(p, dropNulls, NAME);
  }

  // ---------------------------------------------------------------- two creates that clash

  lemma StartReached(asked: set<Event>, env: Env)
    ensures Reaches(asked, Machine(map[], multiset{}), env)
  {
    assert Interleaving([Machine(map[], multiset{})], [], env);
  }

  lemma ReachNext(asked: set<Event>, m: Machine, ev: Event, m': Machine, env: Env)
    requires Reaches(asked, m, env) && Next(m, ev, m', env) && (ev.Validate? ==> Asked(ev, asked))
    ensures Reaches(asked, m', env)
  {
    var ms, evs :| Interleaving(ms, evs, env) && DrawnFrom(evs, asked) && ms[|ms| - 1] == m;
    Extend(ms, evs, ev, m', env);
    assert DrawnFrom(evs + [ev], asked);
  }

  lemma Extend(ms: seq<Machine>, evs: seq<Event>, ev: Event, m: Machine, env: Env)
    requires Interleaving(ms, evs, env) && Next(ms[|ms| - 1], ev, m, env)
    ensures Interleaving(ms + [m], evs + [ev], env) && (ms + [m])[|ms + [m]| - 1] == m
  {
    forall i | 0 <= i < |evs|
      ensures StepAt(ms + [m], evs + [ev], i, env)
    {
      assert StepAt(ms, evs, i, env);
    }
  }

  lemma ReachValidated(asked: set<Event>, tasks: multiset<Task>, ev: Event, p: Object, env: Env)
    requires Reaches(asked, Machine(map[], tasks), env)
    requires AreCreates(asked) && ev in asked && Validated(ev, env.text) == Ok(p)
    ensures Reaches(asked, Machine(map[], tasks + multiset{ToCheck(true, p)}), env)
  {
    var empty: Docs := map[];
    assert ev.(lookup := Missing) == ev;
    assert forall q :: Hits(empty, q, env.e) == {};
    ReachNext(asked, Machine(empty, tasks), ev, Machine(empty, tasks + multiset{ToCheck(true, p)}), env);
  }

  lemma ReachChecked(asked: set<Event>, tasks: multiset<Task>, p: Object, env: Env)
    requires Reaches(asked, Machine(map[], tasks + multiset{ToCheck(true, p)}), env) && Storable(p)
    ensures Reaches(asked, Machine(map[], tasks + multiset{ToWrite(Index(p))}), env)
  {
    var empty: Docs := map[];
    var before := tasks + multiset{ToCheck(true, p)};
    assert Hits(empty, IdModel(Get(p, ID).s), env.e) == {};
    assert before - multiset{ToCheck(true, p)} == tasks;
    ReachNext(asked, Machine(empty, before), Check(ToCheck(true, p)),
              Machine(empty, tasks + multiset{ToWrite(Index(p))}), env);
  }

  lemma ReachStored(asked: set<Event>, docs: Docs, tasks: multiset<Task>, p: Object, env: Env)
    requires Reaches(asked, Machine(docs, tasks + multiset{ToWrite(Index(p))}), env) && Storable(p)
    ensures Reaches(asked, Machine(docs[Get(p, ID).s := Sent(p, env.dropNulls)], tasks), env)
  {
    var before := tasks + multiset{ToWrite(Index(p))};
    assert before - multiset{ToWrite(Index(p))} == tasks;
    ReachNext(asked, Machine(docs, before), Commit(ToWrite(Index(p))),
              Machine(docs[Get(p, ID).s := Sent(p, env.dropNulls)], tasks), env);
  }

  /** Both creates are validated, then both are checked, before either is written. */
  lemma BothStored(asked: set<Event>, a: Event, b: Event, p: Object, q: Object, env: Env)
    requires AreCreates(asked) && a in asked && b in asked && Storable(p) && Storable(q)
    requires Validated(a, env.text) == Ok(p) && Validated(b, env.text) == Ok(q)
    ensures Reaches(asked, Machine(map[Get(p, ID).s := Sent(p, env.dropNulls)][Get(q, ID).s := Sent(q, env.dropNulls)],
                                   multiset{}), env)
  {
    var checkP, checkQ := multiset{ToCheck(true, p)}, multiset{ToCheck(true, q)};
    var writeP, writeQ := multiset{ToWrite(Index(p))}, multiset{ToWrite(Index(q))};
    StartReached(asked, env);
    ReachValidated(asked, multiset{}, a, p, env);
    ReachValidated(asked, multiset{} + checkP, b, q, env);
    ReachChecked(asked, multiset{} + checkP, q, env);
    assert (multiset{} + checkP) + writeQ == writeQ + checkP;
    ReachChecked(asked, writeQ, p, env);
    ReachStored(asked, map[], writeQ, p, env);
    assert writeQ == multiset{} + writeQ;
    ReachStored(asked, map[Get(p, ID).s := Sent(p, env.dropNulls)], multiset{}, q, env);
  }

  lemma DuplicateStored(p: Object, q: Object, dropNulls: bool)
    requires SameItem(p, q) && Get(p, ID).JStr? && Get(q, ID).JStr? && Get(p, ID) != Get(q, ID)
    ensures var stored: Docs := map[Get(p, ID).s := Sent(p, dropNulls)];
            !UniqueNames(stored[Get(q, ID).s := Sent(q, dropNulls)])
  {
    var stored: Docs := map[Get(p, ID).s := Sent(p, dropNulls)];
    var both := stored[Get(q, ID).s := Sent(q, dropNulls)];
    SentIsSameItem(p, dropNulls);
    SentIsSameItem(q, dropNulls);
    assert SameItem(both[Get(p, ID).s], both[Get(q, ID).s]);
  }

  /** Two creates of one kind and name with different ids can both be stored. */
  lemma InterleavedCreatesDuplicate(asked: set<Event>, a: Event, b: Event, p: Object, q: Object, env: Env)
    requires AreCreates(asked) && a in asked && b in asked && Storable(p) && Storable(q)
    requires Validated(a, env.text) == Ok(p) && Validated(b, env.text) == Ok(q)
    requires SameItem(p, q) && Get(p, ID) != Get(q, ID)
    ensures !NamesStayUnique(asked, env)
  {
    BothStored(asked, a, b, p, q, env);
    DuplicateStored(p, q, env.dropNulls);
  }

  /** Names stay unique in every interleaving of a set of creates, with any deletes between them, exactly
      when no two of the creates make items of one kind and name with different ids. */
  lemma NamesStayUniqueExactly(asked: set<Event>, env: Env)
    requires AreCreates(asked)
    ensures NamesStayUnique(asked, env) <==> NoClash(asked, env)
  {
    if NoClash(asked, env) {
      forall m | Reaches(asked, m, env)
        ensures UniqueNames(m.docs)
      {
        var ms, evs :| Interleaving(ms, evs, env) && DrawnFrom(evs, asked) && ms[|ms| - 1] == m;
        InterleavingStaysPlanned(asked, ms, evs, env, |ms| - 1);
        PlannedNamesAreUnique(asked, m, env);
      }
    } else {
      var p, q :| Planned(asked, p, env) && Planned(asked, q, env) && SameItem(p, q) && Get(p, ID) != Get(q, ID);
      var a :| a in asked && a.Validate? && Validated(a, env.text) == Ok(p);
      var b :| b in asked && b.Validate? && Validated(b, env.text) == Ok(q);
      InterleavedCreatesDuplicate(asked, a, b, p, q, env);
    }
  }

  function CreateApps(id: string, name: string, stamp: Stamp): Event {
    Validate(Factory.AppsKind, true, AppsRequest(id, name, [JStr(APPS)], map[]), stamp, Missing)
  }

  lemma AppsValidates(id: string, name: string, stamp: Stamp, text: Json -> string)
    requires Text.IsUuid(id)
    ensures var item := Validated(CreateApps(id, name, stamp), text);
            && item.Ok?
            && Get(item.value, ID) == JStr(id) && Get(item.value, NAME) == JStr(name)
            && Get(item.value, TYPE) == JArr([JStr(APPS)])
  {
    var body := AppsRequest(id, name, [JStr(APPS)], map[]);
    AppsShows(id, name, [JStr(APPS)], map[]);
    ShownIsPrepared(body, id, name, [JStr(APPS)], map[], stamp, text);
    var r := WithCommon(body, stamp);
    AppsParses(r, [JStr(APPS)], text);
    Factory.PrintKeeps(Factory.AppsKind, r, text);
  }

  /** The event creates an apps item under the id and name. */
  ghost predicate CreatesApps(ev: Event, id: string, name: string, text: Json -> string) {
    && ev.Validate? && ev.post && ev.lookup.Missing?
    && Validated(ev, text).Ok?
    && var p := Validated(ev, text).value;
       Get(p, ID) == JStr(id) && Get(p, NAME) == JStr(name) && Get(p, TYPE) == JArr([JStr(APPS)])
  }

  lemma AppsAreCreated(id: string, name: string, stamp: Stamp, text: Json -> string)
    requires Text.IsUuid(id)
    ensures CreatesApps(CreateApps(id, name, stamp), id, name, text)
  {
    AppsValidates(id, name, stamp, text);
  }

  lemma TwinsDuplicate(a: Event, b: Event, u: string, v: string, name: string, env: Env)
    requires CreatesApps(a, u, name, env.text) && CreatesApps(b, v, name, env.text)
    requires u != v && Storable(Validated(a, env.text).value) && Storable(Validated(b, env.text).value)
    ensures !NamesStayUnique({a, b}, env)
  {
    var p, q := Validated(a, env.text).value, Validated(b, env.text).value;
    TwinApps(p, q, name);
    InterleavedCreatesDuplicate({a, b}, a, b, p, q, env);
  }

  lemma TwinApps(p: Object, q: Object, name: string)
    requires Get(p, NAME) == JStr(name) && Get(q, NAME) == JStr(name)
    requires Get(p, TYPE) == JArr([JStr(APPS)]) && Get(q, TYPE) == JArr([JStr(APPS)])
    ensures SameItem(p, q)
  {
  }

  lemma UuidIsStorable(p: Object, id: string)
    requires Get(p, ID) == JStr(id) && Text.IsUuid(id)
    ensures Storable(p)
  {
    assert id[8] == '-';
  }

  /** Under any name two apps items with different ids can be stored, when their creates interleave. */
  lemma AnyNameCanBeDuplicated(name: string, u: string, v: string, stamp: Stamp, env: Env)
    requires Text.IsUuid(u) && Text.IsUuid(v) && u != v
    ensures !NamesStayUnique({CreateApps(u, name, stamp), CreateApps(v, name, stamp)}, env)
  {
    var a, b := CreateApps(u, name, stamp), CreateApps(v, name, stamp);
    AppsAreCreated(u, name, stamp, env.text);
    AppsAreCreated(v, name, stamp, env.text);
    UuidIsStorable(Validated(a, env.text).value, u);
    UuidIsStorable(Validated(b, env.text).value, v);
    TwinsDuplicate(a, b, u, v, name, env);
  }
}
