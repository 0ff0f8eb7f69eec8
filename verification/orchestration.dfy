/** The deployment procedures of deploy.rs and the top-level run (`main`),
    with every network or file effect supplied by an environment. */
module Orchestration {
  import opened Wrappers
  import opened ContractIds
  import opened Registry

  /** The outcomes of everything outside the core. `send(n, tx)` is the
      network's answer to the n-th broadcast of the run: the created
      contract's address, or a failure. */
  datatype Env = Env(
    connected: bool,                        // provider, chain id and wallet setup
    deployer: Contract -> bool,             // building the creation transaction for a contract
    send: (nat, Tx) -> Option<Address>,     // broadcasting it and awaiting the receipt
    artifact: bool,                         // reading and parsing LightClient.json
    linkPlonk: Address -> bool,             // linking PlonkVerifier, then `resolve()`
    linkVk: (Address, Address) -> bool,     // linking LightClientStateUpdateVK, then `resolve()`
    linked: (Address, Address) -> bool,     // `!bytecode.is_unlinked()` afterwards
    bytes: bool,                            // `bytecode.as_bytes()`
    genesis: bool,                          // fetching the light client genesis
    calldata: bool,                         // encoding the `initialize` call
    output: bool)                           // opening and writing the output

  /** The checks the light client's bytecode passed before it may be broadcast. */
  predicate LinkChecked(env: Env, plonk: Address, vk: Address)
  {
    env.artifact && env.linkPlonk(plonk) && env.linkVk(plonk, vk) && env.linked(plonk, vk) && env.bytes
  }

  /** `tx.send().await?` followed by `contract.address()`: the transaction is
      logged whatever the answer. */
  function Broadcast(env: Env, s: State, tx: Tx): (r: Step)
    ensures r.state.registry == s.registry
    ensures r.state.log == s.log + [Sent(tx, env.send(|s.log|, tx))]
    ensures r.result.Ok? <==> env.send(|s.log|, tx).Some?
    ensures r.result.Ok? ==> r.result.value == env.send(|s.log|, tx).value
    ensures r.result.Err? ==> r.result.error == TransactionFailed(Target(tx))
  {
    var answer := env.send(|s.log|, tx);
    var s' := s.(log := s.log + [Sent(tx, answer)]);
    match answer
    case Some(a) => Step(s', Ok(a))
    case None => Step(s', Err(TransactionFailed(Target(tx))))
  }

  /** `Contracts::deploy_tx`: `deploy_fn` whose procedure only broadcasts. */
  function DeployTx(env: Env, s: State, name: Contract): (r: Step)
    ensures name in s.registry ==> r == Step(s, Ok(s.registry[name]))
    ensures name !in s.registry ==>
      && r.state.log == s.log + [Sent(Plain(name), env.send(|s.log|, Plain(name)))]
      && (r.result.Ok? <==> env.send(|s.log|, Plain(name)).Some?)
      && (r.result.Err? ==> r.state.registry == s.registry)
    ensures r.result.Ok? ==> name in r.state.registry && r.state.registry[name] == r.result.value
  {
    DeployFn(s, name, (st: State) => Broadcast(env, st, Plain(name)))
  }

  /** A call site `contracts.deploy_tx(name, X::deploy(l1, ())?)`: the
      transaction is built (and may fail to be) before the cache is consulted. */
  function BuildAndDeployTx(env: Env, s: State, name: Contract): (r: Step)
    ensures !env.deployer(name) ==> r == Step(s, Err(DeployerUnavailable(name)))
    ensures env.deployer(name) && name in s.registry ==> r == Step(s, Ok(s.registry[name]))
    ensures r.state.log == s.log || r.state.log == s.log + [Sent(Plain(name), env.send(|s.log|, Plain(name)))]
    ensures r.result.Ok? ==> env.deployer(name) && name in r.state.registry && r.state.registry[name] == r.result.value
  {
    if !env.deployer(name) then Step(s, Err(DeployerUnavailable(name)))
    else DeployTx(env, s, name)
  }

  /** `deploy_light_client_contract`: resolve both libraries, link the
      bytecode against their addresses, then broadcast it. */
  function DeployLightClientContract(env: Env, s: State): (r: Step)
    ensures s.log <= r.state.log
    ensures r.result.Ok? ==>
      && PlonkVerifier in r.state.registry && StateUpdateVK in r.state.registry
      && env.deployer(PlonkVerifier) && env.deployer(StateUpdateVK) && env.deployer(LightClient)
      && LinkChecked(env, r.state.registry[PlonkVerifier], r.state.registry[StateUpdateVK])
      && |r.state.log| > |s.log|
      && r.state.log[|r.state.log| - 1] ==
           Sent(LinkedLightClient(r.state.registry[PlonkVerifier], r.state.registry[StateUpdateVK]), Some(r.result.value))
  {
    var p := BuildAndDeployTx(env, s, PlonkVerifier);
    if p.result.Err? then p
    else
      var v := BuildAndDeployTx(env, p.state, StateUpdateVK);
      if v.result.Err? then v
      else
        LinkAndDeployLightClient(env, v.state, p.result.value, v.result.value)
  }

  /** The second half of `deploy_light_client_contract`: link the
      LightClient artifact against the library addresses, check that no
      placeholder is left, and broadcast the linked bytecode. */
  function LinkAndDeployLightClient(env: Env, s: State, plonk: Address, vk: Address): (r: Step)
    ensures r.state.registry == s.registry
    ensures r.state.log != s.log <==> LinkChecked(env, plonk, vk) && env.deployer(LightClient)
    ensures r.state.log != s.log ==>
      r.state.log == s.log + [Sent(LinkedLightClient(plonk, vk), env.send(|s.log|, LinkedLightClient(plonk, vk)))]
    ensures r.result.Ok? ==> r.state.log != s.log
  {
    if !env.artifact then Step(s, Err(ArtifactUnreadable))
    else if !env.linkPlonk(plonk) then Step(s, Err(LinkFailed(PlonkVerifier)))
    else if !env.linkVk(plonk, vk) then Step(s, Err(LinkFailed(StateUpdateVK)))
    else if !env.linked(plonk, vk) then Step(s, Err(StillUnlinked))
    else if !env.bytes then Step(s, Err(BytecodeUnparsable))
    else if !env.deployer(LightClient) then Step(s, Err(DeployerUnavailable(LightClient)))
    else Broadcast(env, s, LinkedLightClient(plonk, vk))
  }

  /** The procedure `main` hands to `deploy_fn` for the proxy: resolve the
      light client, fetch genesis, encode `initialize`, deploy the proxy. */
  function DeployProxy(env: Env, s: State): (r: Step)
    ensures s.log <= r.state.log
    ensures r.result.Ok? ==>
      && LightClient in r.state.registry
      && env.genesis && env.calldata && env.deployer(LightClientProxy)
      && |r.state.log| > |s.log|
      && r.state.log[|r.state.log| - 1] == Sent(Proxy(r.state.registry[LightClient]), Some(r.result.value))
  {
    var lc := DeployFn(s, LightClient, (st: State) => DeployLightClientContract(env, st));
    if lc.result.Err? then lc
    else
      var t := lc.state;
      if !env.genesis then Step(t, Err(GenesisUnavailable))
      else if !env.calldata then Step(t, Err(CalldataUnavailable))
      else if !env.deployer(LightClientProxy) then Step(t, Err(DeployerUnavailable(LightClientProxy)))
      else Broadcast(env, t, Proxy(lc.result.value))
  }

  /** The end of a run: the final state and, if every step succeeded, the
      entries written out. */
  datatype Run = Run(state: State, output: Result<set<(string, Address)>, Error>)

  /** `main`, after option parsing. */
  function RunDeploy(env: Env, d: Predeployed): (r: Run)
    ensures !env.connected ==> r == Run(State(FromDeployed(d), []), Err(ConnectionFailed))
    ensures r.output.Ok? ==>
      && env.connected && env.deployer(HotShot) && env.output
      && HotShot in r.state.registry && LightClientProxy in r.state.registry
      && r.output.value == Entries(r.state.registry)
  {
    var s0 := State(FromDeployed(d), []);
    if !env.connected then Run(s0, Err(ConnectionFailed))
    else
      var h := BuildAndDeployTx(env, s0, HotShot);
      if h.result.Err? then Run(h.state, Err(h.result.error))
      else
        var p := DeployFn(h.state, LightClientProxy, (st: State) => DeployProxy(env, st));
        if p.result.Err? then Run(p.state, Err(p.result.error))
        else if !env.output then Run(p.state, Err(WriteFailed))
        else Run(p.state, Ok(Entries(p.state.registry)))
  }
}
