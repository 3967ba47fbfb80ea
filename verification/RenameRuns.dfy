/** A run in which an update under a free name stores the status its client sent. */
module RenameRuns {
  import opened Fields
  import opened Json
  import opened ItemService
  import opened LookalikeItems
  import opened LookalikeSteps
  import opened StoreSteps
  import opened StoreStatus
  import Factory = ItemFactory
  import SampleRequests
  import Text

  const PUBLISHED_BY_CLIENT: Object := map[PUBLISH_STATUS := JStr(PUBLISHED)]

  /** The update renames the AI model and brings a publish status of its own. */
  function Rename(id: string, to: string, stamp: Stamp): Op {
    Submit(Factory.AiModel, false, SampleRequests.ModelRequest(id, to, PUBLISHED_BY_CLIENT), stamp)
  }

  lemma RenameAsks(id: string, to: string, stamp: Stamp)
    ensures Asks(Rename(id, to, stamp), false, id, to, PUBLISHED_BY_CLIENT)
  {
    SampleRequests.ModelShows(id, to, PUBLISHED_BY_CLIENT);
  }

  lemma StatusBrought(op: Op, id: string, to: string, env: Env)
    requires Asks(op, false, id, to, PUBLISHED_BY_CLIENT)
    ensures PublishBrought(op, Missing, env) == (true, JStr(PUBLISHED))
  {
  }

  lemma NameIsFree(w: World, op: Op, u: string, name: string, to: string, more: Object, env: Env)
    requires Alone(w, u, name) && name != to && Asks(op, false, u, to, more) && Text.IsUuid(u)
    ensures IsRouted(op) && Answered(w, op, Missing, env)
  {
    ModelIsPrepared(op, false, u, to, more, env);
    NameMeaning(AI_MODEL, to, w.docs[u], env.e);
    NameField(w.docs[u], name);
    assert Selected(w, op, env) == {};
    AnswersExactly(w, op, Missing, env);
  }

  lemma RenamePublishes(w: World, op: Op, u: string, name: string, to: string, env: Env)
    requires Alone(w, u, name) && Asks(op, false, u, to, PUBLISHED_BY_CLIENT) && Text.IsUuid(u)
    ensures var after := AfterSubmit(w, op, Missing, env);
            u in after.docs && Get(after.docs[u], PUBLISH_STATUS) == JStr(PUBLISHED)
  {
    ModelIsPrepared(op, false, u, to, PUBLISHED_BY_CLIENT, env);
    UuidIsNotBlank(u);
    PutIsAccepted(w, op, u, name, to, PUBLISHED_BY_CLIENT, Missing, env);
    UpdateLands(w, op, Missing, env);
    StatusBrought(op, u, to, env);
    StatusUnderAnswer(w, op, Missing, env);
  }

  lemma TwoSteps(a: Op, b: Op, w1: World, w2: World, env: Env) returns (ws: seq<World>)
    requires Step(EMPTY_WORLD, a, w1, env) && Step(w1, b, w2, env)
    ensures |ws| == 3 && ws[1] == w1 && ws[2] == w2 && ServedRun(ws, [a, b], env)
  {
    ws := [EMPTY_WORLD, w1, w2];
  }

  lemma RenameStates(a: Op, b: Op, u: string, name: string, to: string, env: Env) returns (w1: World, w2: World)
    requires AsksForModel(a, true, u, name) && Asks(b, false, u, to, PUBLISHED_BY_CLIENT)
    requires Text.IsUuid(u) && name != to
    ensures Step(EMPTY_WORLD, a, w1, env) && Step(w1, b, w2, env)
    ensures u in w1.docs && Get(w1.docs[u], PUBLISH_STATUS) == JStr(PENDING)
    ensures u in w2.docs && Get(w2.docs[u], PUBLISH_STATUS) == JStr(PUBLISHED)
  {
    w1 := FirstCreate(a, u, name, env);
    NameIsFree(w1, b, u, name, to, PUBLISHED_BY_CLIENT, env);
    AnsweredStep(w1, b, Missing, env);
    RenamePublishes(w1, b, u, name, to, env);
    w2 := AfterSubmit(w1, b, Missing, env);
  }

  /** From an empty store, a create and one update under a free name take an AI model out of PENDING. */
  lemma ClientLeavesPending(u: string, name: string, to: string, stamp: Stamp, env: Env) returns (ws: seq<World>)
    requires Text.IsUuid(u) && name != to
    ensures |ws| == 3 && ServedRun(ws, [ModelOp(true, u, name, stamp), Rename(u, to, stamp)], env)
    ensures u in ws[1].docs && Get(ws[1].docs[u], PUBLISH_STATUS) == JStr(PENDING)
    ensures u in ws[2].docs && Get(ws[2].docs[u], PUBLISH_STATUS) == JStr(PUBLISHED)
  {
    ModelOpAsks(true, u, name, stamp);
    RenameAsks(u, to, stamp);
    var w1, w2 := RenameStates(ModelOp(true, u, name, stamp), Rename(u, to, stamp), u, name, to, env);
    ws := TwoSteps(ModelOp(true, u, name, stamp), Rename(u, to, stamp), w1, w2, env);
  }
}
