/** The memoizing address registry (`struct Contracts`): its initial
    contents, the generic `deploy_fn` and the entries `write` emits. */
module Registry {
  import opened Wrappers
  import opened ContractIds

  /** Every way a run can abort; each is fatal and propagates to the top. */
  datatype Error =
    | ConnectionFailed                     // provider, chain id or wallet setup
    | DeployerUnavailable(contract: Contract)  // a `deploy(..)?` building the transaction
    | TransactionFailed(contract: Contract)    // `send().await?`
    | ArtifactUnreadable                   // reading LightClient.json
    | LinkFailed(library: Contract)        // `resolve().context(..)?`
    | StillUnlinked                        // `ensure!(!bytecode.is_unlinked())`
    | BytecodeUnparsable                   // `as_bytes().context(..)?`
    | GenesisUnavailable                   // `light_client_genesis(..).await?`
    | CalldataUnavailable                  // `calldata().context(..)?`
    | WriteFailed                          // opening or writing the output

  /** A contract-creation transaction, with the dependency addresses it was built from. */
  datatype Tx =
    | Plain(contract: Contract)                    // no constructor arguments, no linking
    | LinkedLightClient(plonk: Address, vk: Address)  // LightClient bytecode linked against both libraries
    | Proxy(implementation: Address)               // ERC1967Proxy pointing at the light client

  function Target(tx: Tx): Contract
  {
    match tx
    case Plain(c) => c
    case LinkedLightClient(_, _) => LightClient
    case Proxy(_) => LightClientProxy
  }

  /** One broadcast transaction and what the network answered. */
  datatype Sent = Sent(tx: Tx, result: Option<Address>)

  /** The registry threaded through a run, plus the log of broadcasts. */
  datatype State = State(registry: map<Contract, Address>, log: seq<Sent>)

  /** What a deploy step leaves behind: the new state and its result. */
  datatype Step = Step(state: State, result: Result<Address, Error>)

  /** `m'` keeps every binding of `m`. */
  ghost predicate Extends(m: map<Contract, Address>, m': map<Contract, Address>)
  {
    forall c | c in m :: c in m' && m'[c] == m[c]
  }

  /** `struct DeployedContracts`: the addresses supplied by the caller. */
  datatype Predeployed = Predeployed(
    hotshot: Option<Address>,
    plonkVerifier: Option<Address>,
    lightClientStateUpdateVk: Option<Address>,
    lightClient: Option<Address>,
    lightClientProxy: Option<Address>)

  /** The option field of `d` that belongs to contract `c`. */
  function Supplied(d: Predeployed, c: Contract): Option<Address>
  {
    match c
    case HotShot => d.hotshot
    case PlonkVerifier => d.plonkVerifier
    case StateUpdateVK => d.lightClientStateUpdateVk
    case LightClient => d.lightClient
    case LightClientProxy => d.lightClientProxy
  }

  /** `impl From<DeployedContracts> for Contracts`: one insertion per supplied field. */
  function FromDeployed(d: Predeployed): (m: map<Contract, Address>)
    ensures forall c :: c in m <==> Supplied(d, c).Some?
    ensures forall c | c in m :: m[c] == Supplied(d, c).value
  {
    var m0: map<Contract, Address> := map[];
    var m1 := if d.hotshot.Some? then m0[HotShot := d.hotshot.value] else m0;
    var m2 := if d.plonkVerifier.Some? then m1[PlonkVerifier := d.plonkVerifier.value] else m1;
    var m3 := if d.lightClientStateUpdateVk.Some? then m2[StateUpdateVK := d.lightClientStateUpdateVk.value] else m2;
    var m4 := if d.lightClient.Some? then m3[LightClient := d.lightClient.value] else m3;
    if d.lightClientProxy.Some? then m4[LightClientProxy := d.lightClientProxy.value] else m4
  }

  /** `Contracts::deploy_fn`: return the cached address of `name`, or run
      `deploy` (which may itself resolve dependencies in the registry) and
      record the address it produces. */
  function DeployFn(s: State, name: Contract, deploy: State -> Step): (r: Step)
    // a cached name is answered without consulting `deploy` at all
    ensures name in s.registry ==> r == Step(s, Ok(s.registry[name]))
    // otherwise the procedure's outcome is propagated ...
    ensures name !in s.registry ==> r.result == deploy(s).result && r.state.log == deploy(s).state.log
    // ... recording the new address on success ...
    ensures name !in s.registry && deploy(s).result.Ok? ==>
      r.state.registry == deploy(s).state.registry[name := deploy(s).result.value]
    // ... and leaving the procedure's registry untouched on failure
    ensures name !in s.registry && deploy(s).result.Err? ==> r.state == deploy(s).state
    // a success is memoized: the next lookup of `name` hits
    ensures r.result.Ok? ==> name in r.state.registry && r.state.registry[name] == r.result.value
    // write-once: if the procedure keeps existing bindings, so does the call
    ensures name !in s.registry && Extends(s.registry, deploy(s).state.registry) ==>
      Extends(s.registry, r.state.registry)
  {
    if name in s.registry then Step(s, Ok(s.registry[name]))
    else
      var inner := deploy(s);
      match inner.result
      case Err(_) => inner
      case Ok(addr) => Step(inner.state.(registry := inner.state.registry[name := addr]), Ok(addr))
  }

  /** A second resolution of a name that was just resolved is a cache hit
      with the same address, whatever procedure it is given. */
  lemma DeployFnIdempotent(s: State, name: Contract, first: State -> Step, second: State -> Step)
    requires DeployFn(s, name, first).result.Ok?
    ensures var r := DeployFn(s, name, first);
      DeployFn(r.state, name, second) == Step(r.state, r.result)
  {
  }

  /** The `NAME=address` pairs that `Contracts::write` emits, as a set. */
  function Entries(m: map<Contract, Address>): (out: set<(string, Address)>)
    ensures forall c, a :: (DisplayName(c), a) in out <==> c in m && m[c] == a
    ensures forall e | e in out :: ContractNamed(e.0).Some?
  {
    DisplayNamesDistinct();
    set c | c in m :: (DisplayName(c), m[c])
  }

  /** The registry an entry set describes, read back through display names. */
  ghost function EntriesToRegistry(out: set<(string, Address)>): map<Contract, Address>
  {
    map c | c in AllContracts && (exists e | e in out :: e.0 == DisplayName(c)) ::
      var e :| e in out && e.0 == DisplayName(c); e.1
  }

  /** The written entries describe the registry exactly: reading them back
      through the display names recovers every binding and nothing else. */
  lemma EntriesRoundTrip(m: map<Contract, Address>)
    ensures EntriesToRegistry(Entries(m)) == m
  {
    var back := EntriesToRegistry(Entries(m));
    forall c | c in m
      ensures c in back && back[c] == m[c]
    {
      EntryReadBack(m, c);
    }
    forall c | c in back
      ensures c in m
    {
      var e :| e in Entries(m) && e.0 == DisplayName(c);
      assert e == (DisplayName(c), e.1);
    }
  }

  lemma EntryReadBack(m: map<Contract, Address>, c: Contract)
    requires c in m
    ensures var back := EntriesToRegistry(Entries(m)); c in back && back[c] == m[c]
  {
    EveryContractListed(c);
    var out := Entries(m);
    assert (DisplayName(c), m[c]) in out;
    var e :| e in out && e.0 == DisplayName(c);
    assert e == (DisplayName(c), e.1);
  }

  /** `write` emits exactly one line per registry key. */
  lemma {:induction false} EntriesOnePerKey(m: map<Contract, Address>)
    ensures |Entries(m)| == |m|
    decreases |m|
  {
    if |m| > 0 {
      var c :| c in m;
      var rest := map d | d in m && d != c :: m[d];
      assert rest.Keys == m.Keys - {c};
      assert |rest| == |m| - 1;
      EntriesOnePerKey(rest);
      var e := (DisplayName(c), m[c]);
      assert Entries(m) == Entries(rest) + {e};
      assert e !in Entries(rest);
    } else {
      assert Entries(m) == {};
    }
  }
}
