/** The handlers take the steps that the runs are made of. */
module StoreServing {
  import opened Json
  import opened ItemService
  import opened StoreSteps

  function EnvOf(c: Controller): Env {
    Env(c.service.store.engine, c.service.text, c.service.store.dropNulls)
  }

  /** Serving any request takes one step of a run: a submission is handled as the kind its body is routed to,
      and one whose body is routed to no kind is refused. */
  method Serve(c: Controller, ghost w: World, op: Op) returns (ghost after: World)
    requires w.docs == c.service.store.docs
    requires op.Submit? && KindOf(op.body).Some? ==> KindOf(op.body) == Some(op.kind)
    modifies c.service.store
    ensures Step(w, op, after, EnvOf(c)) && after.docs == c.service.store.docs
  {
    ghost var env := EnvOf(c);
    match op {
      case Submit(kind, post, body, stamp) =>
        var _, l := c.HandleCreateOrUpdate(post, body, stamp);
        after := if !IsRouted(op) || Prepared(body, stamp, env.text).Err? then w else AfterSubmit(w, op, l, env);
        assert IsRouted(op) && Prepared(body, stamp, env.text).Ok? ==> Answered(w, op, l, env);
      case Remove(id) =>
        var _ := c.service.DeleteItem(id);
        after := w.(docs := c.service.store.docs);
    }
  }
}
