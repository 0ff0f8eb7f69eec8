/** Properties of a whole deployment run, stated over the final registry,
    the broadcast log and the output. */
module RunProperties {
  import opened Wrappers
  import opened ContractIds
  import opened Registry
  import opened Orchestration
  import opened RunInvariants

  /** Each contract is broadcast at most once per run, and never one whose
      address the caller supplied. */
  lemma AtMostOnceDeployment(env: Env, d: Predeployed)
    ensures var log := RunDeploy(env, d).state.log;
      && (forall i, j | 0 <= i < j < |log| :: Target(log[i].tx) != Target(log[j].tx))
      && (forall i | 0 <= i < |log| :: Supplied(d, Target(log[i].tx)).None?)
  {
    RunInv(env, d);
    var log := RunDeploy(env, d).state.log;
    forall i | 0 <= i < |log|
      ensures Supplied(d, Target(log[i].tx)).None?
    {
      assert EntryOk(env, FromDeployed(d), log, i);
    }
  }

  /** Write-once: a supplied address survives the run unchanged, a created
      contract is recorded at the address the network returned for it, and
      every recorded address has one of these two origins. */
  lemma NoAddressOverwritten(env: Env, d: Predeployed)
    ensures var r := RunDeploy(env, d);
      && (forall c | Supplied(d, c).Some? :: Registered(r.state.registry, c, Supplied(d, c).value))
      && (forall i | 0 <= i < |r.state.log| && r.state.log[i].result.Some? ::
            Registered(r.state.registry, Target(r.state.log[i].tx), r.state.log[i].result.value))
      && (forall c | c in r.state.registry ::
            Supplied(d, c) == Some(r.state.registry[c]) || DeployedIn(r.state.log, c, r.state.registry[c]))
  {
    RunInv(env, d);
  }

  /** Both libraries are resolved before the light client is broadcast, its
      bytecode is linked against exactly the recorded library addresses, and
      it is broadcast only after both library transactions were built and
      every linking check passed. */
  lemma LibrariesBeforeLightClient(env: Env, d: Predeployed)
    ensures var r := RunDeploy(env, d);
      forall i | 0 <= i < |r.state.log| && r.state.log[i].tx.LinkedLightClient? ::
        LightClientEntryOk(env, FromDeployed(d), r.state, i)
  {
    RunInv(env, d);
    var r := RunDeploy(env, d);
    forall i | 0 <= i < |r.state.log| && r.state.log[i].tx.LinkedLightClient?
      ensures LightClientEntryOk(env, FromDeployed(d), r.state, i)
    {
      LightClientEntry(env, FromDeployed(d), r.state, i);
    }
  }

  /** Log entry `i` of `s`, a light client broadcast, came after both library
      addresses it is linked against were resolved and built, those are the
      recorded ones, and every linking check passed. */
  ghost predicate LightClientEntryOk(env: Env, init: map<Contract, Address>, s: State, i: nat)
    requires i < |s.log| && s.log[i].tx.LinkedLightClient?
  {
    var tx := s.log[i].tx;
    && ResolvedBefore(init, s.log, i, PlonkVerifier, tx.plonk)
    && ResolvedBefore(init, s.log, i, StateUpdateVK, tx.vk)
    && Registered(s.registry, PlonkVerifier, tx.plonk)
    && Registered(s.registry, StateUpdateVK, tx.vk)
    && LinkChecked(env, tx.plonk, tx.vk)
    && env.deployer(PlonkVerifier) && env.deployer(StateUpdateVK) && env.deployer(LightClient)
  }

  lemma LightClientEntry(env: Env, init: map<Contract, Address>, s: State, i: nat)
    requires Inv(env, init, s) && i < |s.log| && s.log[i].tx.LinkedLightClient?
    ensures LightClientEntryOk(env, init, s, i)
  {
    assert EntryOk(env, init, s.log, i);
    ResolvedIsRecorded(env, init, s, i, PlonkVerifier, s.log[i].tx.plonk);
    ResolvedIsRecorded(env, init, s, i, StateUpdateVK, s.log[i].tx.vk);
  }

  /** The light client is resolved before the proxy is broadcast, the proxy
      points at the recorded light client address, and it is broadcast only
      after the genesis fetch, the `initialize` calldata and the proxy's
      creation transaction all succeeded. */
  lemma LightClientBeforeProxy(env: Env, d: Predeployed)
    ensures var r := RunDeploy(env, d);
      forall i | 0 <= i < |r.state.log| && r.state.log[i].tx.Proxy? ::
        ProxyEntryOk(env, FromDeployed(d), r.state, i)
  {
    RunInv(env, d);
    var r := RunDeploy(env, d);
    forall i | 0 <= i < |r.state.log| && r.state.log[i].tx.Proxy?
      ensures ProxyEntryOk(env, FromDeployed(d), r.state, i)
    {
      ProxyEntry(env, FromDeployed(d), r.state, i);
    }
  }

  /** Log entry `i` of `s`, a proxy broadcast, came after the light client
      it points at was resolved, at its recorded address, and after genesis,
      calldata and the proxy transaction were obtained. */
  ghost predicate ProxyEntryOk(env: Env, init: map<Contract, Address>, s: State, i: nat)
    requires i < |s.log| && s.log[i].tx.Proxy?
  {
    && ResolvedBefore(init, s.log, i, LightClient, s.log[i].tx.implementation)
    && Registered(s.registry, LightClient, s.log[i].tx.implementation)
    && env.genesis && env.calldata && env.deployer(LightClientProxy)
  }

  lemma ProxyEntry(env: Env, init: map<Contract, Address>, s: State, i: nat)
    requires Inv(env, init, s) && i < |s.log| && s.log[i].tx.Proxy?
    ensures ProxyEntryOk(env, init, s, i)
  {
    assert EntryOk(env, init, s.log, i);
    ResolvedIsRecorded(env, init, s, i, LightClient, s.log[i].tx.implementation);
  }

  /** An address resolved before some broadcast is the one finally recorded. */
  lemma ResolvedIsRecorded(env: Env, init: map<Contract, Address>, s: State, i: nat, c: Contract, a: Address)
    requires Inv(env, init, s) && i < |s.log|
    requires ResolvedBefore(init, s.log, i, c, a)
    ensures Registered(s.registry, c, a)
  {
    if !Registered(init, c, a) {
      var j :| 0 <= j < i && Target(s.log[..i][j].tx) == c && s.log[..i][j].result == Some(a);
      assert s.log[j] == s.log[..i][j];
    }
  }

  /** A failed broadcast ends the run: it is the last one, its contract is
      left unrecorded and nothing is written. */
  lemma FailedBroadcastEndsRun(env: Env, d: Predeployed, i: nat)
    requires var log := RunDeploy(env, d).state.log; i < |log| && log[i].result.None?
    ensures var r := RunDeploy(env, d);
      && i == |r.state.log| - 1
      && Target(r.state.log[i].tx) !in r.state.registry
      && r.output.Err?
  {
    RunInv(env, d);
  }

  /** When the verification-key library's broadcast fails, neither the light
      client nor the proxy is ever broadcast and nothing is written. */
  lemma FailedKeyLibraryBlocksDependents(env: Env, d: Predeployed, i: nat)
    requires var log := RunDeploy(env, d).state.log;
      i < |log| && log[i] == Sent(Plain(StateUpdateVK), None)
    ensures var r := RunDeploy(env, d);
      && (forall j | 0 <= j < |r.state.log| :: Target(r.state.log[j].tx) in {HotShot, PlonkVerifier, StateUpdateVK})
      && r.output.Err?
  {
    RunInv(env, d);
    var r := RunDeploy(env, d);
    var init := FromDeployed(d);
    var log := r.state.log;
    assert EntryOk(env, init, log, i);
    forall j | 0 <= j < |log|
      ensures Target(log[j].tx) in {HotShot, PlonkVerifier, StateUpdateVK}
    {
      assert EntryOk(env, init, log, j);
      if log[j].tx.LinkedLightClient? {
        NoEarlierSuccess(env, init, r.state, i, j, log[j].tx.vk);
      } else if log[j].tx.Proxy? {
        var lc := log[j].tx.implementation;
        var k :| 0 <= k < j && Target(log[..j][k].tx) == LightClient && log[..j][k].result == Some(lc);
        assert log[k] == log[..j][k];
        assert EntryOk(env, init, log, k);
        NoEarlierSuccess(env, init, r.state, i, k, log[k].tx.vk);
      }
    }
  }

  /** With the key library's broadcast failing at `i`, no broadcast before
      the last one can have resolved it. */
  lemma NoEarlierSuccess(env: Env, init: map<Contract, Address>, s: State, i: nat, j: nat, vk: Address)
    requires Inv(env, init, s) && i < |s.log| && j < |s.log|
    requires s.log[i] == Sent(Plain(StateUpdateVK), None)
    ensures !ResolvedBefore(init, s.log, j, StateUpdateVK, vk)
  {
    assert EntryOk(env, init, s.log, i);
  }

  /** Output is produced only once both top-level contracts are resolved;
      it holds one entry per recorded contract and reads back to exactly
      the final registry. */
  lemma OutputDescribesRegistry(env: Env, d: Predeployed)
    ensures var r := RunDeploy(env, d);
      r.output.Ok? ==>
        && HotShot in r.state.registry && LightClientProxy in r.state.registry
        && EntriesToRegistry(r.output.value) == r.state.registry
        && |r.output.value| == |r.state.registry|
  {
    RunInv(env, d);
    var r := RunDeploy(env, d);
    EntriesRoundTrip(r.state.registry);
    EntriesOnePerKey(r.state.registry);
  }

  /** When the HotShot step fails, nothing of the light client chain is
      broadcast and nothing is written. */
  lemma HotShotFailureStopsRun(env: Env, d: Predeployed)
    requires env.connected
    requires BuildAndDeployTx(env, State(FromDeployed(d), []), HotShot).result.Err?
    ensures var r := RunDeploy(env, d);
      && (forall i | 0 <= i < |r.state.log| :: Target(r.state.log[i].tx) == HotShot)
      && r.output.Err?
  {
    var s0 := State(FromDeployed(d), []);
    assert Healthy(env, FromDeployed(d), s0);
    BuildAndDeployTxStep(env, FromDeployed(d), s0, HotShot);
  }

  /** The HotShot broadcast itself failing: the run ends after that one
      broadcast, with the registry as supplied. */
  lemma HotShotBroadcastFailure(env: Env, d: Predeployed)
    requires env.connected && env.deployer(HotShot) && d.hotshot.None?
    requires env.send(0, Plain(HotShot)).None?
    ensures var r := RunDeploy(env, d);
      && r.state == State(FromDeployed(d), [Sent(Plain(HotShot), None)])
      && r.output == Err(TransactionFailed(HotShot))
  {
  }

  /** Rerunning with all five addresses supplied deploys nothing and writes
      back exactly the supplied addresses. */
  lemma FullySuppliedRunDeploysNothing(env: Env, d: Predeployed)
    requires forall c :: Supplied(d, c).Some?
    ensures var r := RunDeploy(env, d);
      && r.state.log == []
      && r.state.registry == FromDeployed(d)
      && (r.output.Ok? <==> env.connected && env.deployer(HotShot) && env.output)
      && (r.output.Ok? ==> EntriesToRegistry(r.output.value) == FromDeployed(d))
  {
    var init := FromDeployed(d);
    RunInv(env, d);
    var r := RunDeploy(env, d);
    NothingToDeploy(env, init, r.state);
    var s0 := State(init, []);
    assert HotShot in init && LightClientProxy in init;
    assert env.deployer(HotShot) ==> BuildAndDeployTx(env, s0, HotShot) == Step(s0, Ok(init[HotShot]));
    EntriesRoundTrip(init);
  }

  /** The other incremental deployment: with the proxy supplied, the whole
      light client chain is a cache hit, so at most HotShot is deployed. */
  lemma ProxySuppliedDeploysOnlyHotShot(env: Env, d: Predeployed)
    requires d.lightClientProxy.Some?
    ensures var log := RunDeploy(env, d).state.log;
      && |log| <= 1
      && forall i | 0 <= i < |log| :: Target(log[i].tx) == HotShot
  {
    RunInv(env, d);
    var log := RunDeploy(env, d).state.log;
    forall i | 0 <= i < |log|
      ensures Target(log[i].tx) == HotShot
    {
      assert EntryOk(env, FromDeployed(d), log, i);
    }
    DistinctTargetsCount(log);
    assert TargetsOf(log) <= {HotShot};
  }

  lemma EntryNotSupplied(env: Env, init: map<Contract, Address>, s: State, i: nat)
    requires Inv(env, init, s) && i < |s.log|
    ensures Target(s.log[i].tx) !in init
  {
    assert EntryOk(env, init, s.log, i);
  }

  /** A state whose starting registry already knows every contract has
      broadcast nothing and recorded nothing new. */
  lemma NothingToDeploy(env: Env, init: map<Contract, Address>, s: State)
    requires Inv(env, init, s)
    requires forall c :: c in init
    ensures s.log == [] && s.registry == init
  {
    if |s.log| > 0 {
      EntryNotSupplied(env, init, s, 0);
      assert false;
    }
    assert s.registry.Keys == init.Keys;
  }

  /** The contracts the broadcasts of `log` target. */
  function TargetsOf(log: seq<Sent>): set<Contract>
  {
    set i | 0 <= i < |log| :: Target(log[i].tx)
  }

  /** A log with pairwise distinct targets has one broadcast per target. */
  lemma {:induction false} DistinctTargetsCount(log: seq<Sent>)
    requires forall i, j | 0 <= i < j < |log| :: Target(log[i].tx) != Target(log[j].tx)
    ensures |TargetsOf(log)| == |log|
  {
    if |log| > 0 {
      var front := log[..|log| - 1];
      var last := Target(log[|log| - 1].tx);
      DistinctTargetsCount(front);
      assert TargetsOf(log) == TargetsOf(front) + {last};
      assert last !in TargetsOf(front);
    } else {
      assert TargetsOf(log) == {};
    }
  }

  /** Some broadcast of `log` created contract `c`. */
  ghost predicate Created(log: seq<Sent>, c: Contract)
  {
    exists a: Address :: DeployedIn(log, c, a)
  }

  /** A created proxy implies a created light client, unless that was supplied. */
  lemma ProxyNeedsLightClient(env: Env, init: map<Contract, Address>, s: State)
    requires Inv(env, init, s) && Created(s.log, LightClientProxy) && LightClient !in init
    ensures Created(s.log, LightClient)
  {
    var b: Address :| DeployedIn(s.log, LightClientProxy, b);
    var j :| 0 <= j < |s.log| && Target(s.log[j].tx) == LightClientProxy && s.log[j].result == Some(b);
    assert EntryOk(env, init, s.log, j);
    EarlierIsDeployed(s.log, j, LightClient, s.log[j].tx.implementation);
  }

  /** A created light client implies created libraries, unless those were supplied. */
  lemma LightClientNeedsLibraries(env: Env, init: map<Contract, Address>, s: State)
    requires Inv(env, init, s) && Created(s.log, LightClient)
    requires PlonkVerifier !in init && StateUpdateVK !in init
    ensures Created(s.log, PlonkVerifier) && Created(s.log, StateUpdateVK)
  {
    var a: Address :| DeployedIn(s.log, LightClient, a);
    var k :| 0 <= k < |s.log| && Target(s.log[k].tx) == LightClient && s.log[k].result == Some(a);
    assert EntryOk(env, init, s.log, k);
    var tx := s.log[k].tx;
    EarlierIsDeployed(s.log, k, PlonkVerifier, tx.plonk);
    EarlierIsDeployed(s.log, k, StateUpdateVK, tx.vk);
  }

  /** A creation in a prefix of the log is a creation in the log. */
  lemma EarlierIsDeployed(log: seq<Sent>, k: nat, c: Contract, a: Address)
    requires k <= |log| && DeployedIn(log[..k], c, a)
    ensures DeployedIn(log, c, a)
  {
    var p :| 0 <= p < k && Target(log[..k][p].tx) == c && log[..k][p].result == Some(a);
    assert log[p] == log[..k][p];
  }

  /** From a registry holding only HotShot, a healthy state with the proxy
      recorded created exactly the four other contracts. */
  lemma ChainFromHotShotOnly(env: Env, init: map<Contract, Address>, s: State)
    requires Healthy(env, init, s) && init.Keys == {HotShot} && LightClientProxy in s.registry
    ensures |s.log| == 4
    ensures TargetsOf(s.log) == AllContracts - {HotShot}
    ensures s.registry.Keys == AllContracts
  {
    assert Created(s.log, LightClientProxy);
    ProxyNeedsLightClient(env, init, s);
    LightClientNeedsLibraries(env, init, s);
    TargetsAreCreated(env, init, s);
    DistinctTargetsCount(s.log);
    forall c ensures c in s.registry <==> c in AllContracts {
      EveryContractListed(c);
      if c != HotShot {
        CreatedIsRecorded(env, init, s, c);
      }
    }
  }

  lemma CreatedIsRecorded(env: Env, init: map<Contract, Address>, s: State, c: Contract)
    requires Inv(env, init, s) && Created(s.log, c)
    ensures c in s.registry
  {
  }

  lemma TargetsAreCreated(env: Env, init: map<Contract, Address>, s: State)
    requires Inv(env, init, s) && HotShot in init
    requires Created(s.log, PlonkVerifier) && Created(s.log, StateUpdateVK)
    requires Created(s.log, LightClient) && Created(s.log, LightClientProxy)
    ensures TargetsOf(s.log) == AllContracts - {HotShot}
  {
    forall i | 0 <= i < |s.log|
      ensures Target(s.log[i].tx) != HotShot
    {
      assert EntryOk(env, init, s.log, i);
    }
    forall c | c in AllContracts - {HotShot}
      ensures c in TargetsOf(s.log)
    {
      var a: Address :| DeployedIn(s.log, c, a);
      var j :| 0 <= j < |s.log| && Target(s.log[j].tx) == c && s.log[j].result == Some(a);
    }
  }

  lemma KeyCount(m: map<Contract, Address>)
    requires m.Keys == AllContracts
    ensures |m| == 5
  {
    assert |AllContracts| == 5;
  }

  lemma FiveEntries(m: map<Contract, Address>)
    requires m.Keys == AllContracts
    ensures |Entries(m)| == 5
  {
    EntriesOnePerKey(m);
    KeyCount(m);
  }

  lemma OnlyHotShotSupplied(d: Predeployed)
    requires d.hotshot.Some?
    requires forall c | c != HotShot :: Supplied(d, c).None?
    ensures FromDeployed(d).Keys == {HotShot}
    ensures FromDeployed(d)[HotShot] == d.hotshot.value
  {
    assert Supplied(d, HotShot) == d.hotshot;
  }

  /** Supplying only HotShot's address, every run that writes output
      deployed exactly the other four contracts and writes five entries,
      HotShot's unchanged; a run in which every outside step succeeds does
      write output. */
  lemma OnlyHotShotSuppliedDeploysFour(env: Env, d: Predeployed)
    requires d.hotshot.Some?
    requires forall c | c != HotShot :: Supplied(d, c).None?
    ensures var r := RunDeploy(env, d);
      && (r.output.Ok? ==>
            && |r.state.log| == 4
            && TargetsOf(r.state.log) == AllContracts - {HotShot}
            && r.state.registry.Keys == AllContracts
            && Registered(r.state.registry, HotShot, d.hotshot.value)
            && |r.output.value| == 5)
      && (Cooperative(env) ==> r.output.Ok?)
  {
    RunInv(env, d);
    var r := RunDeploy(env, d);
    var init := FromDeployed(d);
    OnlyHotShotSupplied(d);
    if r.output.Ok? {
      ChainFromHotShotOnly(env, init, r.state);
      FiveEntries(r.state.registry);
    }
  }

  /** Every broadcast of a run was preceded by the successful outside steps
      its procedure performs first (building the creation transactions,
      linking, the genesis fetch, the calldata). */
  lemma EveryBroadcastPrepared(env: Env, d: Predeployed)
    ensures var log := RunDeploy(env, d).state.log;
      forall i | 0 <= i < |log| :: Prepared(env, log[i].tx)
  {
    RunInv(env, d);
    var log := RunDeploy(env, d).state.log;
    forall i | 0 <= i < |log|
      ensures Prepared(env, log[i].tx)
    {
      assert EntryOk(env, FromDeployed(d), log, i);
    }
  }

  /** With neither the light client nor the proxy supplied, output is only
      written after both library transactions could be built: a failure to
      build the verification-key library's transaction (or the verifier's)
      ends the run without output, whether or not the library was supplied. */
  lemma LibraryBuildFailureBlocksOutput(env: Env, d: Predeployed)
    ensures var r := RunDeploy(env, d);
      r.output.Ok? && Supplied(d, LightClient).None? && Supplied(d, LightClientProxy).None? ==>
        env.deployer(PlonkVerifier) && env.deployer(StateUpdateVK)
  {
    RunInv(env, d);
    var r := RunDeploy(env, d);
    var init := FromDeployed(d);
    if r.output.Ok? && LightClient !in init && LightClientProxy !in init {
      var a := r.state.registry[LightClientProxy];
      var j :| 0 <= j < |r.state.log| && Target(r.state.log[j].tx) == LightClientProxy && r.state.log[j].result == Some(a);
      assert DeployedIn(r.state.log, LightClientProxy, a);
      CreatedProxyNeedsLibraryBuilds(env, init, r.state);
    }
  }

  /** A created proxy over a light client this run created implies that both
      library transactions could be built. */
  lemma CreatedProxyNeedsLibraryBuilds(env: Env, init: map<Contract, Address>, s: State)
    requires Inv(env, init, s) && Created(s.log, LightClientProxy) && LightClient !in init
    ensures env.deployer(PlonkVerifier) && env.deployer(StateUpdateVK)
  {
    ProxyNeedsLightClient(env, init, s);
    var a: Address :| DeployedIn(s.log, LightClient, a);
    var k :| 0 <= k < |s.log| && Target(s.log[k].tx) == LightClient && s.log[k].result == Some(a);
    assert EntryOk(env, init, s.log, k);
  }
}
