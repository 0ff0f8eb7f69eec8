/** The invariant every state of a run keeps, and its preservation by each
    deployment procedure. `init` is the registry the run started from. */
module RunInvariants {
  import opened Wrappers
  import opened ContractIds
  import opened Registry
  import opened Orchestration

  predicate Registered(m: map<Contract, Address>, c: Contract, a: Address)
  {
    c in m && m[c] == a
  }

  /** Some broadcast in `log` created contract `c` at address `a`. */
  ghost predicate DeployedIn(log: seq<Sent>, c: Contract, a: Address)
  {
    exists j | 0 <= j < |log| :: Target(log[j].tx) == c && log[j].result == Some(a)
  }

  /** Before broadcast `i`, contract `c` was known at `a`: supplied by the
      caller, or created by an earlier broadcast. */
  ghost predicate ResolvedBefore(init: map<Contract, Address>, log: seq<Sent>, i: nat, c: Contract, a: Address)
    requires i <= |log|
  {
    Registered(init, c, a) || DeployedIn(log[..i], c, a)
  }

  /** Broadcast `i` follows the dependency graph: HotShot and the libraries
      are plain creations, the light client is built from resolved library
      addresses, the proxy points at a resolved light client; a contract is
      only created when no contract that depends on it, directly or through
      the light client, was supplied. */
  ghost predicate InputsResolved(init: map<Contract, Address>, log: seq<Sent>, i: nat)
    requires i < |log|
  {
    match log[i].tx
    case Plain(c) =>
      || c == HotShot
      || ((c == PlonkVerifier || c == StateUpdateVK) && LightClient !in init && LightClientProxy !in init)
    case LinkedLightClient(p, v) =>
      && ResolvedBefore(init, log, i, PlonkVerifier, p)
      && ResolvedBefore(init, log, i, StateUpdateVK, v)
      && LightClientProxy !in init
    case Proxy(a) => ResolvedBefore(init, log, i, LightClient, a)
  }

  /** Every outside step that precedes the broadcast of `tx` succeeded:
      building its creation transaction (for the light client, also those of
      both libraries, built before their cache lookups) and, for the light
      client, linking; for the proxy, the genesis fetch and the calldata. */
  ghost predicate Prepared(env: Env, tx: Tx)
  {
    match tx
    case Plain(c) => env.deployer(c)
    case LinkedLightClient(p, v) =>
      && env.deployer(PlonkVerifier) && env.deployer(StateUpdateVK)
      && LinkChecked(env, p, v) && env.deployer(LightClient)
    case Proxy(_) => env.genesis && env.calldata && env.deployer(LightClientProxy)
  }

  /** What is true of each single broadcast of a run. */
  ghost predicate EntryOk(env: Env, init: map<Contract, Address>, log: seq<Sent>, i: nat)
    requires i < |log|
  {
    && Target(log[i].tx) !in init
    && log[i].result == env.send(i, log[i].tx)
    && InputsResolved(init, log, i)
    && Prepared(env, log[i].tx)
  }

  /** The run invariant. */
  ghost predicate Inv(env: Env, init: map<Contract, Address>, s: State)
  {
    // supplied addresses are never overwritten
    && Extends(init, s.registry)
    && (forall i | 0 <= i < |s.log| :: EntryOk(env, init, s.log, i))
    // no contract is broadcast twice
    && (forall i, j | 0 <= i < j < |s.log| :: Target(s.log[i].tx) != Target(s.log[j].tx))
    // a created contract is recorded at the address the network gave
    && (forall i | 0 <= i < |s.log| && s.log[i].result.Some? ::
          Registered(s.registry, Target(s.log[i].tx), s.log[i].result.value))
    // a failed broadcast is the last one and records nothing
    && (forall i | 0 <= i < |s.log| && s.log[i].result.None? ::
          i == |s.log| - 1 && Target(s.log[i].tx) !in s.registry)
    // every recorded address was supplied or created
    && (forall c | c in s.registry :: c in init || DeployedIn(s.log, c, s.registry[c]))
  }

  /** A state a run can continue from: no broadcast has failed. */
  ghost predicate Healthy(env: Env, init: map<Contract, Address>, s: State)
  {
    Inv(env, init, s) && forall i | 0 <= i < |s.log| :: s.log[i].result.Some?
  }

  /** A procedure for `name` has just created it at `a`; only the record in
      the registry, which `deploy_fn` adds, is missing. */
  ghost predicate Pending(env: Env, init: map<Contract, Address>, t: State, name: Contract, a: Address)
  {
    name !in t.registry && Healthy(env, init, t.(registry := t.registry[name := a]))
  }

  /** `t` continues `s`, and every broadcast in between targets `cs`. */
  ghost predicate Grows(s: State, t: State, cs: set<Contract>)
  {
    s.log <= t.log && forall i | |s.log| <= i < |t.log| :: Target(t.log[i].tx) in cs
  }

  /** What a deploy procedure for `name`, started in `s`, may leave behind. */
  ghost predicate ProcedureOk(env: Env, init: map<Contract, Address>, s: State, name: Contract, cs: set<Contract>, q: Step)
  {
    && Grows(s, q.state, cs)
    && (q.result.Ok? ==> Pending(env, init, q.state, name, q.result.value))
    && (q.result.Err? ==> Inv(env, init, q.state) && name !in q.state.registry)
  }

  /** What resolving `name` from `s` leaves behind. */
  ghost predicate ResolutionOk(env: Env, init: map<Contract, Address>, s: State, name: Contract, cs: set<Contract>, r: Step)
  {
    && Grows(s, r.state, cs)
    && (r.result.Ok? ==>
          Healthy(env, init, r.state) && Extends(s.registry, r.state.registry)
          && Registered(r.state.registry, name, r.result.value))
    // a failure records nothing for `name` that was not there before
    && (r.result.Err? ==> Inv(env, init, r.state) && (name !in s.registry ==> name !in r.state.registry))
  }

  /** Every outside step succeeds and the network accepts every transaction. */
  ghost predicate Cooperative(env: Env)
  {
    && env.connected && env.artifact && env.bytes && env.genesis && env.calldata && env.output
    && (forall c :: env.deployer(c))
    && (forall p :: env.linkPlonk(p))
    && (forall p, v :: env.linkVk(p, v) && env.linked(p, v))
    && (forall n, tx :: env.send(n, tx).Some?)
  }

  lemma DeployedInExtend(log: seq<Sent>, x: Sent, c: Contract, a: Address)
    requires DeployedIn(log, c, a)
    ensures DeployedIn(log + [x], c, a)
  {
    var j :| 0 <= j < |log| && Target(log[j].tx) == c && log[j].result == Some(a);
    assert (log + [x])[j] == log[j];
  }

  lemma EntryOkExtend(env: Env, init: map<Contract, Address>, log: seq<Sent>, x: Sent, i: nat)
    requires i < |log| && EntryOk(env, init, log, i)
    ensures EntryOk(env, init, log + [x], i)
  {
    var log' := log + [x];
    assert log'[i] == log[i];
    assert log'[..i] == log[..i];
  }

  /** A state reached from a healthy one by appending broadcasts keeps its registry. */
  lemma PrefixExtends(env: Env, init: map<Contract, Address>, s: State, t: State)
    requires Healthy(env, init, s) && Inv(env, init, t) && s.log <= t.log
    ensures Extends(s.registry, t.registry)
  {
    forall c | c in s.registry
      ensures c in t.registry && t.registry[c] == s.registry[c]
    {
      if c !in init {
        var j :| 0 <= j < |s.log| && Target(s.log[j].tx) == c && s.log[j].result == Some(s.registry[c]);
        assert t.log[j] == s.log[j];
      }
    }
  }

  /** A contract unregistered in `s` that no later broadcast targets is still unregistered. */
  lemma StaysUnregistered(env: Env, init: map<Contract, Address>, s: State, t: State, cs: set<Contract>, c: Contract)
    requires Healthy(env, init, s) && Inv(env, init, t) && Grows(s, t, cs)
    requires c !in s.registry && c !in cs
    ensures c !in t.registry
  {
  }

  /** What a broadcast may rely on: the target is unregistered and the
      transaction is built from registered dependency addresses. */
  ghost predicate Broadcastable(env: Env, m: map<Contract, Address>, tx: Tx)
  {
    && Target(tx) !in m
    && Prepared(env, tx)
    && match tx
      case Plain(c) =>
        || c == HotShot
        || ((c == PlonkVerifier || c == StateUpdateVK) && LightClient !in m && LightClientProxy !in m)
      case LinkedLightClient(p, v) =>
        && Registered(m, PlonkVerifier, p) && Registered(m, StateUpdateVK, v)
        && LightClientProxy !in m
      case Proxy(a) => Registered(m, LightClient, a)
  }

  /** Appending a broadcastable transaction to a healthy log keeps every
      per-entry fact and the distinctness of targets. */
  lemma AppendEntry(env: Env, init: map<Contract, Address>, s: State, x: Sent)
    requires Healthy(env, init, s)
    requires Broadcastable(env, s.registry, x.tx)
    requires x.result == env.send(|s.log|, x.tx)
    ensures forall i | 0 <= i < |s.log + [x]| :: EntryOk(env, init, s.log + [x], i)
    ensures forall i, j | 0 <= i < j < |s.log + [x]| ::
      Target((s.log + [x])[i].tx) != Target((s.log + [x])[j].tx)
    ensures forall c | c in s.registry :: c in init || DeployedIn(s.log + [x], c, s.registry[c])
  {
    var n := |s.log|;
    var log' := s.log + [x];
    assert log'[..n] == s.log;
    forall i | 0 <= i < n
      ensures EntryOk(env, init, log', i)
    {
      EntryOkExtend(env, init, s.log, x, i);
    }
    assert EntryOk(env, init, log', n);
    forall c | c in s.registry && c !in init
      ensures DeployedIn(log', c, s.registry[c])
    {
      DeployedInExtend(s.log, x, c, s.registry[c]);
    }
  }

  /** Broadcasting the transaction of an unregistered contract whose inputs are registered. */
  lemma BroadcastStep(env: Env, init: map<Contract, Address>, s: State, tx: Tx)
    requires Healthy(env, init, s)
    requires Broadcastable(env, s.registry, tx)
    ensures ProcedureOk(env, init, s, Target(tx), {Target(tx)}, Broadcast(env, s, tx))
    ensures env.send(|s.log|, tx).Some? ==> Broadcast(env, s, tx).result.Ok?
  {
    var n := |s.log|;
    var x := Sent(tx, env.send(n, tx));
    var log' := s.log + [x];
    AppendEntry(env, init, s, x);
    var r := Broadcast(env, s, tx);
    assert r.state.log == log';
    if r.result.Ok? {
      var a := r.result.value;
      var reg' := s.registry[Target(tx) := a];
      assert log'[n].result == Some(a);
      assert DeployedIn(log', Target(tx), a);
      assert Healthy(env, init, State(reg', log'));
    }
  }

  /** `deploy_fn` turns a well-behaved procedure into a well-behaved resolution. */
  lemma DeployFnStep(env: Env, init: map<Contract, Address>, s: State, name: Contract, cs: set<Contract>,
                     deploy: State -> Step)
    requires Healthy(env, init, s)
    requires name in cs
    requires name !in s.registry ==> ProcedureOk(env, init, s, name, cs, deploy(s))
    ensures ResolutionOk(env, init, s, name, cs, DeployFn(s, name, deploy))
  {
    var r := DeployFn(s, name, deploy);
    if name !in s.registry && r.result.Ok? {
      PrefixExtends(env, init, s, r.state);
    }
  }

  /** `deploy_tx` is handed an already built transaction, hence `deployer(name)`. */
  lemma DeployTxStep(env: Env, init: map<Contract, Address>, s: State, name: Contract)
    requires Healthy(env, init, s)
    requires env.deployer(name)
    requires
      || name == HotShot
      || ((name == PlonkVerifier || name == StateUpdateVK) && LightClient !in s.registry && LightClientProxy !in s.registry)
    ensures ResolutionOk(env, init, s, name, {name}, DeployTx(env, s, name))
    ensures Cooperative(env) ==> DeployTx(env, s, name).result.Ok?
  {
    if name !in s.registry {
      BroadcastStep(env, init, s, Plain(name));
    }
    DeployFnStep(env, init, s, name, {name}, (st: State) => Broadcast(env, st, Plain(name)));
  }

  lemma BuildAndDeployTxStep(env: Env, init: map<Contract, Address>, s: State, name: Contract)
    requires Healthy(env, init, s)
    requires
      || name == HotShot
      || ((name == PlonkVerifier || name == StateUpdateVK) && LightClient !in s.registry && LightClientProxy !in s.registry)
    ensures ResolutionOk(env, init, s, name, {name}, BuildAndDeployTx(env, s, name))
    ensures Cooperative(env) ==> BuildAndDeployTx(env, s, name).result.Ok?
    ensures BuildAndDeployTx(env, s, name).result.Ok? ==> env.deployer(name)
  {
    if env.deployer(name) {
      DeployTxStep(env, init, s, name);
    }
  }

  lemma LinkAndDeployLightClientStep(env: Env, init: map<Contract, Address>, s: State, plonk: Address, vk: Address)
    requires Healthy(env, init, s)
    requires LightClient !in s.registry
    requires LightClientProxy !in s.registry
    requires Registered(s.registry, PlonkVerifier, plonk) && Registered(s.registry, StateUpdateVK, vk)
    requires env.deployer(PlonkVerifier) && env.deployer(StateUpdateVK)
    ensures ProcedureOk(env, init, s, LightClient, {LightClient}, LinkAndDeployLightClient(env, s, plonk, vk))
    ensures Cooperative(env) ==> LinkAndDeployLightClient(env, s, plonk, vk).result.Ok?
  {
    if LinkChecked(env, plonk, vk) && env.deployer(LightClient) {
      BroadcastStep(env, init, s, LinkedLightClient(plonk, vk));
    }
  }

  lemma GrowsTrans(s: State, t: State, u: State, cs: set<Contract>, ds: set<Contract>)
    requires Grows(s, t, cs) && Grows(t, u, ds)
    ensures Grows(s, u, cs + ds)
  {
    forall i | |s.log| <= i < |u.log|
      ensures Target(u.log[i].tx) in cs + ds
    {
      if i < |t.log| {
        assert u.log[i] == t.log[i];
      }
    }
  }

  lemma DeployLightClientContractStep(env: Env, init: map<Contract, Address>, s: State)
    requires Healthy(env, init, s)
    requires LightClient !in s.registry && LightClientProxy !in s.registry
    ensures ProcedureOk(env, init, s, LightClient, {PlonkVerifier, StateUpdateVK, LightClient},
                        DeployLightClientContract(env, s))
    ensures Cooperative(env) ==> DeployLightClientContract(env, s).result.Ok?
  {
    var p := BuildAndDeployTx(env, s, PlonkVerifier);
    BuildAndDeployTxStep(env, init, s, PlonkVerifier);
    StaysUnregistered(env, init, s, p.state, {PlonkVerifier}, LightClient);
    if p.result.Ok? {
      StaysUnregistered(env, init, s, p.state, {PlonkVerifier}, LightClientProxy);
      LightClientAfterPlonk(env, init, s, p);
    }
  }

  /** `deploy_light_client_contract` once PlonkVerifier is resolved. */
  lemma LightClientAfterPlonk(env: Env, init: map<Contract, Address>, s: State, p: Step)
    requires Healthy(env, init, p.state) && p.result.Ok? && Grows(s, p.state, {PlonkVerifier})
    requires env.deployer(PlonkVerifier)
    requires Registered(p.state.registry, PlonkVerifier, p.result.value)
    requires LightClient !in p.state.registry && LightClientProxy !in p.state.registry
    ensures var v := BuildAndDeployTx(env, p.state, StateUpdateVK);
      var q := if v.result.Err? then v else LinkAndDeployLightClient(env, v.state, p.result.value, v.result.value);
      && ProcedureOk(env, init, s, LightClient, {PlonkVerifier, StateUpdateVK, LightClient}, q)
      && (Cooperative(env) ==> q.result.Ok?)
  {
    var v := BuildAndDeployTx(env, p.state, StateUpdateVK);
    BuildAndDeployTxStep(env, init, p.state, StateUpdateVK);
    StaysUnregistered(env, init, p.state, v.state, {StateUpdateVK}, LightClient);
    GrowsTrans(s, p.state, v.state, {PlonkVerifier}, {StateUpdateVK});
    if v.result.Ok? {
      StaysUnregistered(env, init, p.state, v.state, {StateUpdateVK}, LightClientProxy);
      var q := LinkAndDeployLightClient(env, v.state, p.result.value, v.result.value);
      LinkAndDeployLightClientStep(env, init, v.state, p.result.value, v.result.value);
      GrowsTrans(s, v.state, q.state, {PlonkVerifier, StateUpdateVK}, {LightClient});
    }
  }

  lemma DeployProxyStep(env: Env, init: map<Contract, Address>, s: State)
    requires Healthy(env, init, s)
    requires LightClientProxy !in s.registry
    ensures ProcedureOk(env, init, s, LightClientProxy,
                        {PlonkVerifier, StateUpdateVK, LightClient, LightClientProxy}, DeployProxy(env, s))
    ensures Cooperative(env) ==> DeployProxy(env, s).result.Ok?
  {
    var cs := {PlonkVerifier, StateUpdateVK, LightClient};
    var deployLc := (st: State) => DeployLightClientContract(env, st);
    if LightClient !in s.registry {
      DeployLightClientContractStep(env, init, s);
    }
    DeployFnStep(env, init, s, LightClient, cs, deployLc);
    var lc := DeployFn(s, LightClient, deployLc);
    StaysUnregistered(env, init, s, lc.state, cs, LightClientProxy);
    if lc.result.Ok? && env.genesis && env.calldata && env.deployer(LightClientProxy) {
      BroadcastStep(env, init, lc.state, Proxy(lc.result.value));
    }
  }

  /** A whole run keeps the invariant; it writes output only from a healthy
      state in which both top-level contracts are resolved. */
  lemma RunInv(env: Env, d: Predeployed)
    ensures var r := RunDeploy(env, d);
      && Inv(env, FromDeployed(d), r.state)
      && (r.output.Ok? ==>
            && Healthy(env, FromDeployed(d), r.state)
            && HotShot in r.state.registry && LightClientProxy in r.state.registry
            && r.output.value == Entries(r.state.registry))
      && (Cooperative(env) ==> r.output.Ok?)
  {
    var init := FromDeployed(d);
    var s0 := State(init, []);
    assert Healthy(env, init, s0);
    if env.connected {
      var h := BuildAndDeployTx(env, s0, HotShot);
      BuildAndDeployTxStep(env, init, s0, HotShot);
      if h.result.Ok? {
        var deployProxy := (st: State) => DeployProxy(env, st);
        if LightClientProxy !in h.state.registry {
          DeployProxyStep(env, init, h.state);
        }
        DeployFnStep(env, init, h.state, LightClientProxy,
                     {PlonkVerifier, StateUpdateVK, LightClient, LightClientProxy}, deployProxy);
      }
    }
  }
}
