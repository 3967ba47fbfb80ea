/** Runs in which a listed type of one item reads, ignoring case, as the type of another kind. */
module LookalikeRuns {
  import opened Fields
  import opened Json
  import opened ItemService
  import opened LookalikeItems
  import opened LookalikeSteps
  import opened StoreSteps
  import Elastic
  import Text

  lemma RunOfThree(ops: seq<Op>, w1: World, w2: World, w3: World, env: Env) returns (ws: seq<World>)
    requires |ops| == 3
    requires Step(EMPTY_WORLD, ops[0], w1, env) && Step(w1, ops[1], w2, env) && Step(w2, ops[2], w3, env)
    ensures |ws| == 4 && ws[2] == w2 && ws[3] == w3 && ServedRun(ws, ops, env)
  {
    ws := [EMPTY_WORLD, w1, w2, w3];
    StepsAreARun(ws, ops, env);
  }

  lemma StepsAreARun(ws: seq<World>, ops: seq<Op>, env: Env)
    requires |ws| == 4 && |ops| == 3 && ws[0] == EMPTY_WORLD
    requires Step(ws[0], ops[0], ws[1], env) && Step(ws[1], ops[1], ws[2], env) && Step(ws[2], ops[2], ws[3], env)
    ensures ServedRun(ws, ops, env)
  {
  }

  /** The update keeps the name of the pending AI model it addresses, which is published and uploaded
      afterwards, though its last write carried no media. */
  ghost predicate LeavesPending(w: World, op: Op, after: World, u: string, env: Env) {
    && op.Submit? && Prepared(op.body, op.stamp, env.text).Ok? && KeepsName(w, op, env)
    && u in w.docs && Get(w.docs[u], PUBLISH_STATUS) == JStr(PENDING)
    && Released(after, u)
  }

  lemma BothCreated(ops: seq<Op>, u: string, v: string, name: string, env: Env) returns (w1: World, w2: World)
    requires AskBoth(ops, u, v, name) && Text.IsUuid(u) && Text.IsUuid(v) && u != v && Elastic.CaseFolds(env.e, TYPE)
    ensures Step(EMPTY_WORLD, ops[0], w1, env) && Step(w1, ops[1], w2, env) && Both(w2, u, v, name, env)
  {
    w1 := FirstCreate(ops[0], u, name, env);
    w2 := SecondCreate(w1, ops[1], u, v, name, env);
  }

  lemma IdIsUnused(w: World, u: string, v: string, x: string, name: string, env: Env)
    requires Both(w, u, v, name, env) && x != u && x != v
    ensures x !in w.docs
  {
  }

  lemma ModelIsPending(w: World, u: string, v: string, name: string, env: Env)
    requires Both(w, u, v, name, env)
    ensures u in w.docs && Get(w.docs[u], PUBLISH_STATUS) == JStr(PENDING)
  {
  }

  lemma CreateStates(ops: seq<Op>, u: string, v: string, x: string, name: string, env: Env)
    returns (w1: World, w2: World, w3: World)
    requires AskBoth(ops, u, v, name) && AsksForModel(ops[2], true, x, name)
    requires Text.IsUuid(u) && Text.IsUuid(v) && Text.IsUuid(x) && u != v && x != u && x != v
    requires Elastic.CaseFolds(env.e, TYPE)
    ensures Step(EMPTY_WORLD, ops[0], w1, env) && Step(w1, ops[1], w2, env) && Step(w2, ops[2], w3, env)
    ensures !UniqueNames(w3.docs)
  {
    w1, w2 := BothCreated(ops, u, v, name, env);
    IdIsUnused(w2, u, v, x, name, env);
    w3 := CreateThroughMixed(w2, ops[2], x, u, v, name, env);
  }

  lemma UpdateStates(ops: seq<Op>, u: string, v: string, name: string, env: Env)
    returns (w1: World, w2: World, w3: World)
    requires AskBoth(ops, u, v, name) && AsksForModel(ops[2], false, u, name)
    requires Text.IsUuid(u) && Text.IsUuid(v) && u != v && Elastic.CaseFolds(env.e, TYPE)
    ensures Step(EMPTY_WORLD, ops[0], w1, env) && Step(w1, ops[1], w2, env) && Step(w2, ops[2], w3, env)
    ensures LeavesPending(w2, ops[2], w3, u, env)
  {
    w1, w2 := BothCreated(ops, u, v, name, env);
    ModelIsPending(w2, u, v, name, env);
    w3 := PutThroughMixed(w2, ops[2], u, v, name, env);
  }

  lemma UpdateRun(ops: seq<Op>, u: string, v: string, name: string, env: Env) returns (ws: seq<World>)
    requires AskBoth(ops, u, v, name) && AsksForModel(ops[2], false, u, name)
    requires Text.IsUuid(u) && Text.IsUuid(v) && u != v && Elastic.CaseFolds(env.e, TYPE)
    ensures |ws| == 4 && ServedRun(ws, ops, env) && LeavesPending(ws[2], ops[2], ws[3], u, env)
  {
    var w1, w2, w3 := UpdateStates(ops, u, v, name, env);
    ws := RunOfThree(ops, w1, w2, w3, env);
  }

  lemma CreateRun(ops: seq<Op>, u: string, v: string, x: string, name: string, env: Env)
    returns (ws: seq<World>)
    requires AskBoth(ops, u, v, name) && AsksForModel(ops[2], true, x, name)
    requires Text.IsUuid(u) && Text.IsUuid(v) && Text.IsUuid(x) && u != v && x != u && x != v
    requires Elastic.CaseFolds(env.e, TYPE)
    ensures |ws| == 4 && ServedRun(ws, ops, env) && !UniqueNames(ws[3].docs)
  {
    var w1, w2, w3 := CreateStates(ops, u, v, x, name, env);
    ws := RunOfThree(ops, w1, w2, w3, env);
  }

  /** Two creates, of an AI model and of an apps item that also lists the model type in capitals, then an
      update of the model or a create of a second one. */
  function Requests(post: bool, u: string, v: string, x: string, name: string, stamp: Stamp): seq<Op> {
    [ModelOp(true, u, name, stamp), MixedOp(v, name, stamp), ModelOp(post, x, name, stamp)]
  }

  lemma RequestsAsk(post: bool, u: string, v: string, x: string, name: string, stamp: Stamp)
    ensures AskBoth(Requests(post, u, v, x, name, stamp), u, v, name)
    ensures AsksForModel(Requests(post, u, v, x, name, stamp)[2], post, x, name)
  {
    ModelOpAsks(true, u, name, stamp);
    MixedOpAsks(v, name, stamp);
    ModelOpAsks(post, x, name, stamp);
  }

  /** From an empty store, three accepted requests publish an AI model and mark it as uploaded: the update
      copies the statuses the client of the apps item wrote. */
  lemma LookalikePublishes(u: string, v: string, name: string, stamp: Stamp, env: Env) returns (ws: seq<World>)
    requires Text.IsUuid(u) && Text.IsUuid(v) && u != v && Elastic.CaseFolds(env.e, TYPE)
    ensures var ops := Requests(false, u, v, u, name, stamp);
            |ws| == 4 && ServedRun(ws, ops, env) && LeavesPending(ws[2], ops[2], ws[3], u, env)
  {
    RequestsAsk(false, u, v, u, name, stamp);
    ws := UpdateRun(Requests(false, u, v, u, name, stamp), u, v, name, env);
  }

  /** With the apps item stored, a second AI model of the same name is let through. */
  lemma LookalikeDuplicates(u: string, v: string, x: string, name: string, stamp: Stamp, env: Env)
    returns (ws: seq<World>)
    requires Text.IsUuid(u) && Text.IsUuid(v) && Text.IsUuid(x) && u != v && x != u && x != v
    requires Elastic.CaseFolds(env.e, TYPE)
    ensures |ws| == 4 && ServedRun(ws, Requests(true, u, v, x, name, stamp), env) && !UniqueNames(ws[3].docs)
  {
    RequestsAsk(true, u, v, x, name, stamp);
    ws := CreateRun(Requests(true, u, v, x, name, stamp), u, v, x, name, env);
  }
}
