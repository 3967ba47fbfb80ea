/** Deployment of the configured verticles, one after the other. */
module Deployer {
  import opened Json

  const ID := "id"
  const INSTANCES := "verticleInstances"
  const IS_WORKER := "isWorkerVerticle"

  datatype Configs = Configs(modules: seq<Object>, common: Object)

  /** The settings a deployment reads: an instance count and a worker flag; a worker also needs its pool size. */
  predicate Complete(config: Object) {
    && Get(config, INSTANCES).JNum? && Get(config, IS_WORKER).JBool?
    && (Get(config, IS_WORKER).b ==> Get(config, "threadPoolSize").JNum?)
  }

  function WithCommon(cs: Configs, i: nat): Configs
    requires i < |cs.modules|
  {
    cs.(modules := cs.modules[i := MergeIn(cs.modules[i], cs.common)])
  }

  /** The index of the first module with the id; a module without an id on the way makes the search throw. */
  function FindModule(modules: seq<Object>, name: string): (r: Option<nat>)
    ensures r.Some? ==> r.value < |modules| && Get(modules[r.value], ID) == JStr(name)
    decreases |modules|
  {
    if modules == [] || Get(modules[0], ID).JNull? then None
    else if Get(modules[0], ID) == JStr(name) then Some(0)
    else
      var later := FindModule(modules[1..], name);
      if later.Some? then Some(later.value + 1) else None
  }

  /** One attempt to deploy a named module: whether it starts and the configuration it leaves behind. */
  function Attempt(cs: Configs, name: string, starts: (string, Object) -> bool): (bool, Configs) {
    var i := FindModule(cs.modules, name);
    if i.None? then (false, cs)
    else if cs.modules[i.value] == map[] then (false, cs)
    else
      var merged := WithCommon(cs, i.value);
      var config := merged.modules[i.value];
      (Complete(config) && starts(name, config), merged)
  }

  /** The first module with the id, all before it having other ids. */
  ghost predicate IsFirst(modules: seq<Object>, name: string, i: nat) {
    && i < |modules| && Get(modules[i], ID) == JStr(name)
    && forall j :: 0 <= j < i ==> !Get(modules[j], ID).JNull? && Get(modules[j], ID) != JStr(name)
  }

  lemma {:induction false} FindsFirst(modules: seq<Object>, name: string, i: nat)
    ensures FindModule(modules, name) == Some(i) <==> IsFirst(modules, name, i)
    decreases |modules|
  {
    if modules == [] || Get(modules[0], ID).JNull? || i == 0 {
    } else if Get(modules[0], ID) == JStr(name) {
    } else {
      FindsFirst(modules[1..], name, i - 1);
      if IsFirst(modules[1..], name, i - 1) {
        assert forall j :: 0 < j < i ==> modules[j] == modules[1..][j - 1];
      }
      if IsFirst(modules, name, i) {
        assert forall j :: 0 <= j < i - 1 ==> modules[1..][j] == modules[j + 1];
      }
    }
  }

  /** The module with the common settings put over its own, key path by key path: where the common settings
      are silent its own value stays, elsewhere theirs wins. */
  ghost predicate HoldsCommon(config: Object, own: Object, common: Object) {
    forall path: seq<string> | path != [] ::
      && (Silent(common, path) ==> At(config, path) == At(own, path))
      && (!Silent(common, path) && !(At(common, path).Some? && At(common, path).value.JObj?) ==>
            At(config, path) == At(common, path))
  }

  lemma MergeHoldsCommon(own: Object, common: Object)
    ensures HoldsCommon(MergeIn(own, common), own, common)
  {
    forall path: seq<string> | path != []
      ensures Silent(common, path) ==> At(MergeIn(own, common), path) == At(own, path)
      ensures !Silent(common, path) && !(At(common, path).Some? && At(common, path).value.JObj?) ==>
                At(MergeIn(own, common), path) == At(common, path)
    {
      MergedAt(own, common, path);
    }
  }

  /** A number of instances, and either no worker or a worker with a pool size. */
  ghost predicate Deploys(config: Object) {
    && (exists n :: Get(config, "verticleInstances") == JNum(n))
    && (|| Get(config, "isWorkerVerticle") == JBool(false)
        || (Get(config, "isWorkerVerticle") == JBool(true) && Get(config, "threadPoolSize").JNum?))
  }

  lemma CompleteExactly(config: Object)
    ensures Complete(config) <==> Deploys(config)
  {
    if Complete(config) {
      assert Get(config, "verticleInstances") == JNum(Get(config, INSTANCES).lexeme);
    }
  }

  /** An attempt finds nothing and changes nothing, or puts the common settings over the first module of
      the name and leaves all others; it succeeds exactly when that module then deploys and starts. */
  lemma AttemptExactly(cs: Configs, name: string, starts: (string, Object) -> bool)
    ensures var (ok, after) := Attempt(cs, name, starts);
            && (!(exists i: nat :: IsFirst(cs.modules, name, i)) ==> !ok && after == cs)
            && (forall i: nat | IsFirst(cs.modules, name, i) ::
                  && |after.modules| == |cs.modules| && after.common == cs.common
                  && HoldsCommon(after.modules[i], cs.modules[i], cs.common)
                  && (forall j | 0 <= j < |cs.modules| && j != i :: after.modules[j] == cs.modules[j])
                  && (ok <==> Deploys(after.modules[i]) && starts(name, after.modules[i])))
  {
    forall i: nat
      ensures FindModule(cs.modules, name) == Some(i) <==> IsFirst(cs.modules, name, i)
    {
      FindsFirst(cs.modules, name, i);
    }
    if FindModule(cs.modules, name).Some? {
      var i := FindModule(cs.modules, name).value;
      assert cs.modules[i] != map[];
      MergeHoldsCommon(cs.modules[i], cs.common);
      CompleteExactly(MergeIn(cs.modules[i], cs.common));
    }
  }

  /** How many of the requested modules are deployed before the first failure. */
  function Deployable(cs: Configs, names: seq<string>, starts: (string, Object) -> bool): nat
    decreases |names|
  {
    if names == [] then 0
    else
      var (ok, after) := Attempt(cs, names[0], starts);
      if ok then 1 + Deployable(after, names[1..], starts) else 0
  }

  /** The configuration after the first n attempts. */
  function After(cs: Configs, names: seq<string>, n: nat, starts: (string, Object) -> bool): Configs
    requires n <= |names|
    decreases n
  {
    if n == 0 then cs else After(Attempt(cs, names[0], starts).1, names[1..], n - 1, starts)
  }

  /** After n deployments the next module, if there is one, was attempted too. */
  function Attempts(names: seq<string>, n: nat): nat {
    if n < |names| then n + 1 else n
  }

  /** The deployed modules are the longest prefix of the request of which every attempt succeeds. */
  lemma {:induction false} DeployableIsLongestPrefix(cs: Configs, names: seq<string>, starts: (string, Object) -> bool)
    ensures var n := Deployable(cs, names, starts);
            && n <= |names|
            && (forall i :: 0 <= i < n ==> Attempt(After(cs, names, i, starts), names[i], starts).0)
            && (n < |names| ==> !Attempt(After(cs, names, n, starts), names[n], starts).0)
    decreases |names|
  {
    if names == [] {
    } else {
      var (ok, after) := Attempt(cs, names[0], starts);
      if ok {
        DeployableIsLongestPrefix(after, names[1..], starts);
        var n := Deployable(cs, names, starts);
        forall i | 0 <= i < n
          ensures Attempt(After(cs, names, i, starts), names[i], starts).0
        {
          if i > 0 {
            assert names[1..][i - 1] == names[i];
          }
        }
      }
    }
  }

  lemma AfterFirst(cs: Configs, names: seq<string>, n: nat, starts: (string, Object) -> bool)
    requires 1 <= n <= |names|
    ensures After(cs, names, n, starts) == After(Attempt(cs, names[0], starts).1, names[1..], n - 1, starts)
  {
  }

  /** A failing attempt is the only one, and leaves its configuration behind. */
  lemma FailingAttempt(cs: Configs, names: seq<string>, starts: (string, Object) -> bool)
    requires names != [] && !Attempt(cs, names[0], starts).0
    ensures Deployable(cs, names, starts) == 0
    ensures After(cs, names, Attempts(names, 0), starts) == Attempt(cs, names[0], starts).1
  {
    AfterFirst(cs, names, 1, starts);
  }

  lemma {:induction false} DeployableBound(cs: Configs, names: seq<string>, starts: (string, Object) -> bool)
    ensures Deployable(cs, names, starts) <= |names|
    decreases |names|
  {
    if names == [] {
    } else {
      DeployableBound(Attempt(cs, names[0], starts).1, names[1..], starts);
    }
  }

  lemma OneMoreDeployable(cs: Configs, names: seq<string>, starts: (string, Object) -> bool)
    requires names != [] && Attempt(cs, names[0], starts).0
    ensures Deployable(cs, names, starts) == Deployable(Attempt(cs, names[0], starts).1, names[1..], starts) + 1
  {
  }

  lemma AttemptsOfRest(names: seq<string>, n: nat)
    requires names != []
    ensures Attempts(names, n + 1) == Attempts(names[1..], n) + 1
  {
  }

  lemma AfterOneMore(cs: Configs, names: seq<string>, starts: (string, Object) -> bool, after: Configs, m: nat)
    requires names != [] && after == Attempt(cs, names[0], starts).1 && m < |names|
    ensures After(cs, names, Attempts(names, m + 1), starts)
         == After(after, names[1..], Attempts(names[1..], m), starts)
  {
    AttemptsOfRest(names, m);
    AfterFirst(cs, names, Attempts(names, m + 1), starts);
  }

  /** After a successful attempt the rest of the list is deployed from the configuration it leaves behind. */
  lemma SucceedingAttempt(cs: Configs, names: seq<string>, starts: (string, Object) -> bool)
    requires names != [] && Attempt(cs, names[0], starts).0
    ensures var after, n := Attempt(cs, names[0], starts).1, Deployable(cs, names, starts);
            && n == Deployable(after, names[1..], starts) + 1 && n <= |names|
            && After(cs, names, Attempts(names, n), starts)
                 == After(after, names[1..], Attempts(names[1..], n - 1), starts)
  {
    var after := Attempt(cs, names[0], starts).1;
    OneMoreDeployable(cs, names, starts);
    DeployableBound(after, names[1..], starts);
    AfterOneMore(cs, names, starts, after, Deployable(after, names[1..], starts));
  }

  lemma TakeOneMore(done: seq<string>, names: seq<string>, n: nat)
    requires 1 <= n <= |names|
    ensures done + [names[0]] + names[1..][..n - 1] == done + names[..n]
    ensures names[1..][n - 1..] == names[n..]
  {
    assert [names[0]] + names[1..][..n - 1] == names[..n];
  }

  class Deployment {
    var configs: Configs
    var modules: seq<string>
    var deployed: seq<string>

    constructor (configs: Configs, modules: seq<string>)
      ensures this.configs == configs && this.modules == modules && deployed == []
    {
      this.configs, this.modules, deployed := configs, modules, [];
    }

    /** Deploys the head of the list, removes it and goes on with the rest; stops at the first failure. */
    method RecursiveDeploy(starts: (string, Object) -> bool)
      modifies this
      ensures var n := Deployable(old(configs), old(modules), starts);
              && n <= |old(modules)|
              && deployed == old(deployed) + old(modules)[..n]
              && modules == old(modules)[n..]
              && configs == After(old(configs), old(modules), Attempts(old(modules), n), starts)
      decreases |modules|
    {
      if modules == [] {
        return;
      }
      ghost var cs, names := configs, modules;
      var name := modules[0];
      var (ok, after) := Attempt(configs, name, starts);
      configs := after;
      if !ok {
        FailingAttempt(cs, names, starts);
        return;
      }
      SucceedingAttempt(cs, names, starts);
      deployed := deployed + [name];
      modules := modules[1..];
      RecursiveDeploy(starts);
      TakeOneMore(old(deployed), names, Deployable(cs, names, starts));
    }

    /** The variant that deploys everything configured, by index; the module's name is read after the merge. */
    method RecursiveDeployAll(i: nat, starts: (string, Object) -> bool)
      requires i <= |configs.modules|
      modifies this
      ensures |configs.modules| == |old(configs.modules)| && modules == old(modules)
      ensures deployed == old(deployed) + DeployedFrom(old(configs), i, starts)
      ensures MergedFrom(old(configs), configs, i, DeployableFrom(old(configs), i, starts))
      decreases |configs.modules| - i
    {
      ghost var before := configs;
      if i >= |configs.modules| {
        return;
      }
      FirstOfDeployed(before, i, starts);
      MergedOne(before, i);
      configs := WithCommon(configs, i);
      var config := configs.modules[i];
      if !Launches(config, starts) {
        return;
      }
      ghost var rest := DeployedFrom(configs, i + 1, starts);
      deployed := deployed + [NameOf(config)];
      ghost var middle := configs;
      RecursiveDeployAll(i + 1, starts);
      MergedMore(before, middle, configs, i, DeployableFrom(middle, i + 1, starts));
      assert deployed == (old(deployed) + [NameOf(config)]) + rest == old(deployed) + ([NameOf(config)] + rest);
    }
  }

  /** The configuration after n deployments from index i on: the deployed modules and the one that did not
      launch hold the common settings, the others are as they were. */
  predicate MergedFrom(before: Configs, after: Configs, i: nat, n: nat) {
    && after.common == before.common && |after.modules| == |before.modules|
    && forall k :: 0 <= k < |before.modules| ==>
         after.modules[k] == if i <= k <= i + n then MergedModule(before, k) else before.modules[k]
  }

  lemma MergedOne(cs: Configs, i: nat)
    requires i < |cs.modules|
    ensures MergedFrom(cs, WithCommon(cs, i), i, 0)
  {
  }

  lemma MergedMore(before: Configs, middle: Configs, after: Configs, i: nat, n: nat)
    requires i < |before.modules| && middle == WithCommon(before, i) && MergedFrom(middle, after, i + 1, n)
    ensures MergedFrom(before, after, i, n + 1)
  {
  }

  function NameOf(config: Object): string {
    if Get(config, ID).JStr? then Get(config, ID).s else ""
  }

  function MergedModule(cs: Configs, i: nat): Object
    requires i < |cs.modules|
  {
    MergeIn(cs.modules[i], cs.common)
  }

  predicate Starts(cs: Configs, i: nat, starts: (string, Object) -> bool)
    requires i < |cs.modules|
  {
    Launches(MergedModule(cs, i), starts)
  }

  predicate Launches(config: Object, starts: (string, Object) -> bool) {
    Complete(config) && Get(config, ID).JStr? && starts(Get(config, ID).s, config)
  }

  /** By index, a module launches exactly when with the common settings over its own it has a name, deploys
      and starts. */
  lemma StartsExactly(cs: Configs, i: nat, starts: (string, Object) -> bool)
    requires i < |cs.modules|
    ensures HoldsCommon(MergedModule(cs, i), cs.modules[i], cs.common)
    ensures Starts(cs, i, starts) <==>
            && Deploys(MergedModule(cs, i))
            && exists name: string :: Get(MergedModule(cs, i), "id") == JStr(name) && starts(name, MergedModule(cs, i))
  {
    MergeHoldsCommon(cs.modules[i], cs.common);
    CompleteExactly(MergedModule(cs, i));
    if Starts(cs, i, starts) {
      assert Get(MergedModule(cs, i), "id") == JStr(Get(MergedModule(cs, i), ID).s);
    }
  }

  function DeployableFrom(cs: Configs, i: nat, starts: (string, Object) -> bool): (n: nat)
    ensures i <= |cs.modules| ==> i + n <= |cs.modules|
    decreases |cs.modules| - i
  {
    if i >= |cs.modules| || !Starts(cs, i, starts) then 0 else 1 + DeployableFrom(cs, i + 1, starts)
  }

  function Names(cs: Configs, i: nat, n: nat): seq<string>
    requires i + n <= |cs.modules|
    decreases n
  {
    if n == 0 then []
    else
      [NameOf(MergedModule(cs, i))] + Names(cs, i + 1, n - 1)
  }

  lemma {:induction false} SameSuffix(a: Configs, b: Configs, i: nat, starts: (string, Object) -> bool)
    requires |a.modules| == |b.modules| && a.common == b.common && i <= |a.modules|
    requires forall k :: i <= k < |a.modules| ==> a.modules[k] == b.modules[k]
    ensures DeployableFrom(a, i, starts) == DeployableFrom(b, i, starts)
    ensures Names(a, i, DeployableFrom(a, i, starts)) == Names(b, i, DeployableFrom(b, i, starts))
    decreases |a.modules| - i
  {
    if i == |a.modules| {
    } else {
      SameSuffix(a, b, i + 1, starts);
    }
  }

  /** The modules deployed from index i on: as many as launch in a row, in the order they are configured. */
  function DeployedFrom(cs: Configs, i: nat, starts: (string, Object) -> bool): seq<string>
    requires i <= |cs.modules|
  {
    Names(cs, i, DeployableFrom(cs, i, starts))
  }

  lemma FirstOfDeployed(cs: Configs, i: nat, starts: (string, Object) -> bool)
    requires i < |cs.modules|
    ensures WithCommon(cs, i).modules[i] == MergedModule(cs, i) && |WithCommon(cs, i).modules| == |cs.modules|
    ensures !Starts(cs, i, starts) ==> DeployedFrom(cs, i, starts) == [] && DeployableFrom(cs, i, starts) == 0
    ensures Starts(cs, i, starts) ==>
              DeployableFrom(cs, i, starts) == DeployableFrom(WithCommon(cs, i), i + 1, starts) + 1
    ensures Starts(cs, i, starts) ==>
              var first := NameOf(MergedModule(cs, i));
              DeployedFrom(cs, i, starts) == [first] + DeployedFrom(WithCommon(cs, i), i + 1, starts)
  {
    if Starts(cs, i, starts) {
      SameSuffix(WithCommon(cs, i), cs, i + 1, starts);
    }
  }

  /** Deployment from index i runs through the modules that launch, in configured order, and stops at the
      first one that does not. */
  lemma {:induction false} DeployedFromExactly(cs: Configs, i: nat, starts: (string, Object) -> bool)
    requires i <= |cs.modules|
    ensures var names := DeployedFrom(cs, i, starts);
            && |names| == DeployableFrom(cs, i, starts)
            && (forall k :: i <= k < i + |names| ==>
                  Starts(cs, k, starts) && Get(MergedModule(cs, k), "id") == JStr(names[k - i]))
            && (i + |names| < |cs.modules| ==> !Starts(cs, i + |names|, starts))
    decreases |cs.modules| - i
  {
    if i < |cs.modules| && Starts(cs, i, starts) {
      DeployedFromExactly(cs, i + 1, starts);
    }
  }

  /** Merging the common settings into a module a second time changes nothing, so a repeated module is
      deployed with the same configuration. */
  lemma MergeIsIdempotent(cs: Configs, i: nat)
    requires i < |cs.modules|
    ensures WithCommon(WithCommon(cs, i), i) == WithCommon(cs, i)
  {
    MergeTwice(cs.modules[i], cs.common);
  }
}
