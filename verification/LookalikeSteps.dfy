/** What the name lookup makes of the look-alike, and the requests served through it. */
module LookalikeSteps {
  import opened Fields
  import opened Json
  import opened ItemService
  import opened LookalikeItems
  import QueryMeaning
  import opened StoreSteps
  import opened StoreStatus
  import Decoder = QueryDecoder
  import Elastic
  import Factory = ItemFactory
  import SampleRequests
  import Text

  lemma ModelIsNotSelected(d: Object, id: string, name: string, asked: string, e: Elastic.Engine)
    requires StoredModel(d, id, name) && Elastic.CaseFolds(e, TYPE)
    ensures !QueryMeaning.Holds(Decoder.NameExistsModel(APPS, asked), d, e)
  {
    NameMeaning(APPS, asked, d, e);
    ModelValues(d);
    TypeField(d);
    if Text.EqualsIgnoreCase(AI_MODEL, APPS) {
      TypeNamesDiffer(Factory.AiModel, Factory.AppsKind);
    }
  }

  lemma MixedIsSelected(d: Object, id: string, name: string, env: Env)
    requires StoredMixed(d, id, name, env) && Elastic.CaseFolds(env.e, TYPE)
    ensures QueryMeaning.Holds(Decoder.NameExistsModel(AI_MODEL, name), d, env.e)
  {
    NameMeaning(AI_MODEL, name, d, env.e);
    NameField(d, name);
    TypeField(d);
    LookalikeReadsAsModel();
  }

  lemma ModelOpAsks(post: bool, id: string, name: string, stamp: Stamp)
    ensures AsksForModel(ModelOp(post, id, name, stamp), post, id, name)
  {
    SampleRequests.ModelShows(id, name, map[]);
  }

  lemma MixedOpAsks(id: string, name: string, stamp: Stamp)
    ensures AsksForMixed(MixedOp(id, name, stamp), id, name)
  {
    SampleRequests.AppsShows(id, name, MIXED_TYPES, UPLOADED_AND_PUBLISHED);
  }

  lemma AnsweredStep(w: World, op: Op, l: Lookup, env: Env)
    requires op.Submit? && Answered(w, op, l, env) && IsRouted(op)
    ensures Step(w, op, AfterSubmit(w, op, l, env), env)
  {
  }

  /** The store after the first create. */
  ghost predicate Alone(w: World, u: string, name: string) {
    w.docs.Keys == {u} && StoredModel(w.docs[u], u, name)
  }

  /** The store after both creates. */
  ghost predicate Both(w: World, u: string, v: string, name: string, env: Env) {
    && w.docs.Keys == {u, v} && Keyed(w.docs)
    && StoredModel(w.docs[u], u, name) && StoredMixed(w.docs[v], v, name, env)
  }

  lemma FirstAdded(u: string, d: Object, after: World, name: string)
    requires Adds(EMPTY_WORLD, u, d, after) && StoredModel(d, u, name)
    ensures Alone(after, u, name)
  {
  }

  lemma SecondAdded(w: World, u: string, v: string, d: Object, after: World, name: string, env: Env)
    requires Alone(w, u, name) && Adds(w, v, d, after) && StoredMixed(d, v, name, env)
    ensures Both(after, u, v, name, env)
  {
    assert after.docs.Keys == {u, v};
  }

  lemma FirstCreate(op: Op, u: string, name: string, env: Env) returns (w: World)
    requires AsksForModel(op, true, u, name) && Text.IsUuid(u)
    ensures Step(EMPTY_WORLD, op, w, env) && Alone(w, u, name)
  {
    ModelIsPrepared(op, true, u, name, map[], env);
    AnswersExactly(EMPTY_WORLD, op, Missing, env);
    AnsweredStep(EMPTY_WORLD, op, Missing, env);
    var d := ModelStored(EMPTY_WORLD, op, u, name, Missing, env);
    w := AfterSubmit(EMPTY_WORLD, op, Missing, env);
    FirstAdded(u, d, w, name);
  }

  lemma MixedNameIsFree(w: World, op: Op, u: string, v: string, name: string, env: Env)
    requires AsksForMixed(op, v, name) && Text.IsUuid(v) && Elastic.CaseFolds(env.e, TYPE) && Alone(w, u, name)
    ensures IsRouted(op) && Answered(w, op, Missing, env)
  {
    MixedIsPrepared(op, v, name, env);
    ModelIsNotSelected(w.docs[u], u, name, name, env.e);
    assert Selected(w, op, env) == {};
    AnswersExactly(w, op, Missing, env);
  }

  lemma SecondCreate(w: World, op: Op, u: string, v: string, name: string, env: Env) returns (after: World)
    requires AsksForMixed(op, v, name) && Text.IsUuid(v) && u != v && Elastic.CaseFolds(env.e, TYPE)
    requires Alone(w, u, name)
    ensures Step(w, op, after, env) && Both(after, u, v, name, env)
  {
    MixedNameIsFree(w, op, u, v, name, env);
    AnsweredStep(w, op, Missing, env);
    after := MixedIsBeside(w, op, u, v, name, env);
  }

  lemma MixedIsBeside(w: World, op: Op, u: string, v: string, name: string, env: Env) returns (after: World)
    requires Alone(w, u, name) && AsksForMixed(op, v, name) && Text.IsUuid(v) && u != v
    ensures after == AfterSubmit(w, op, Missing, env) && Both(after, u, v, name, env)
  {
    var d := MixedIsStored(w, op, v, name, env);
    after := AfterSubmit(w, op, Missing, env);
    SecondAdded(w, u, v, d, after, name, env);
  }

  ghost predicate AskBoth(ops: seq<Op>, u: string, v: string, name: string) {
    |ops| == 3 && AsksForModel(ops[0], true, u, name) && AsksForMixed(ops[1], v, name)
  }

  /** The lookup for the model's name may answer with the mixed item. */
  lemma MixedAnswers(w: World, op: Op, post: bool, id: string, u: string, v: string, name: string, env: Env)
    requires Both(w, u, v, name, env) && Elastic.CaseFolds(env.e, TYPE)
    requires AsksForModel(op, post, id, name) && Text.IsUuid(id)
    ensures IsRouted(op) && Prepared(op.body, op.stamp, env.text).Ok?
    ensures Answered(w, op, ReadBack(w.docs[v], env), env)
  {
    ModelIsPrepared(op, post, id, name, map[], env);
    MixedIsSelected(w.docs[v], v, name, env);
    assert v in Selected(w, op, env);
    AnswersExactly(w, op, ReadBack(w.docs[v], env), env);
  }

  lemma ModelIsListed(d: Object, id: string, name: string)
    requires StoredModel(d, id, name)
    ensures Lists(d, Factory.AiModel)
  {
    ModelValues(d);
  }

  lemma PutIsAccepted(w: World, op: Op, u: string, name: string, to: string, more: Object, l: Lookup, env: Env)
    requires Keyed(w.docs) && u in w.docs && StoredModel(w.docs[u], u, name) && Text.IsUuid(u)
    requires Asks(op, false, u, to, more) && !l.Failed?
    ensures IsRouted(op) && Accepted(w, op, l, env)
  {
    ModelIsPrepared(op, false, u, to, more, env);
    UuidIsNotBlank(u);
    ModelItemParses(op, false, u, to, more, l, env);
    ModelIsListed(w.docs[u], u, name);
    PutAcceptedExactly(w, op, l, env);
  }

  /** Published and uploaded, though its last write carried no media. */
  ghost predicate Released(w: World, u: string) {
    && u in w.docs && u in w.carried && !w.carried[u]
    && Get(w.docs[u], PUBLISH_STATUS) == JStr(PUBLISHED) && Get(w.docs[u], DATA_UPLOAD_STATUS) == JBool(true)
  }

  lemma PutReleases(w: World, op: Op, u: string, name: string, l: Lookup, env: Env)
    requires Keyed(w.docs) && u in w.docs && StoredModel(w.docs[u], u, name) && Text.IsUuid(u)
    requires AsksForModel(op, false, u, name) && l.Found? && BringsStatuses(l.item, env.text)
    ensures Released(AfterSubmit(w, op, l, env), u)
  {
    PutIsAccepted(w, op, u, name, name, map[], l, env);
    ModelIsPrepared(op, false, u, name, map[], env);
    UuidIsNotBlank(u);
    StatusUnderAnswer(w, op, l, env);
    UpdateLands(w, op, l, env);
  }

  /** The update copies the statuses of the mixed item. */
  lemma PutThroughMixed(w: World, op: Op, u: string, v: string, name: string, env: Env) returns (after: World)
    requires Both(w, u, v, name, env) && Text.IsUuid(u) && Elastic.CaseFolds(env.e, TYPE)
    requires AsksForModel(op, false, u, name)
    ensures Step(w, op, after, env) && Released(after, u)
    ensures Prepared(op.body, op.stamp, env.text).Ok? && KeepsName(w, op, env)
  {
    var l := ReadBack(w.docs[v], env);
    MixedAnswers(w, op, false, u, u, v, name, env);
    AnsweredStep(w, op, l, env);
    PutReleases(w, op, u, name, l, env);
    ModelIsPrepared(op, false, u, name, map[], env);
    after := AfterSubmit(w, op, l, env);
  }

  lemma TwinAdded(w: World, x: string, d: Object, after: World, u: string, name: string)
    requires Adds(w, x, d, after) && u in w.docs && StoredModel(w.docs[u], u, name) && StoredModel(d, x, name)
    ensures !UniqueNames(after.docs)
  {
    assert SameItem(after.docs[x], after.docs[u]);
  }

  lemma ModelCreatedBeside(w: World, op: Op, x: string, u: string, name: string, l: Lookup, env: Env)
    requires Keyed(w.docs) && x !in w.docs && u in w.docs && StoredModel(w.docs[u], u, name)
    requires AsksForModel(op, true, x, name) && Text.IsUuid(x) && LetsCreate(op.kind, l)
    ensures !UniqueNames(AfterSubmit(w, op, l, env).docs)
  {
    var d := ModelStored(w, op, x, name, l, env);
    TwinAdded(w, x, d, AfterSubmit(w, op, l, env), u, name);
  }

  /** The create does not see the model behind the mixed item. */
  lemma CreateThroughMixed(w: World, op: Op, x: string, u: string, v: string, name: string, env: Env)
    returns (after: World)
    requires Both(w, u, v, name, env) && Text.IsUuid(x) && x !in w.docs && Elastic.CaseFolds(env.e, TYPE)
    requires AsksForModel(op, true, x, name)
    ensures Step(w, op, after, env) && !UniqueNames(after.docs)
  {
    var l := ReadBack(w.docs[v], env);
    MixedAnswers(w, op, true, x, u, v, name, env);
    AnsweredStep(w, op, l, env);
    ModelCreatedBeside(w, op, x, u, name, l, env);
    after := AfterSubmit(w, op, l, env);
  }
}
