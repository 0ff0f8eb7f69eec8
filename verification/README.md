# Espresso sequencer contract deployer: registry and orchestration

This project models the deployment engine of `sequencer/src/bin/deploy.rs`:
the memoizing registry `Contracts` (a map from the five-value `Contract` enum
to L1 addresses), its `deploy_fn`/`deploy_tx` operations, the hard-coded
dependency graph walked by `main` and `deploy_light_client_contract`
(HotShot; the PlonkVerifier and LightClientStateUpdateVK libraries; the
LightClient linked against both; the ERC-1967 proxy initialised over the
LightClient), and the `.env` output that `Contracts::write` produces.

A run is a pure function of the pre-supplied addresses and an environment
`Env` that stands for everything outside the core: `send(n, tx)` is the
network's answer to the n-th broadcast of the run (an address or a failure),
and every other fallible outside step (provider and wallet setup, building a
creation transaction, reading and linking the LightClient artifact, the
genesis fetch, the `initialize` calldata, opening the output) is a boolean
or a predicate on the addresses involved. The state threaded through the
run is the registry plus a log of every broadcast transaction and its
answer. Each logged transaction carries the addresses it was built from
(the library addresses linked into the LightClient bytecode, the
implementation address handed to the proxy), so dependency order is stated
as "these addresses were resolved before log entry i".

Modules:

- `Wrappers`: `Option` and `Result`.
- `ContractIds`: `Contract`, its display names (the environment-variable
  names), `Address` as a 160-bit natural number.
- `Registry`: the registry state, `From<DeployedContracts>`, `deploy_fn`,
  and the output as a set of `(name, address)` pairs.
- `Orchestration`: `deploy_tx`, the call sites that build the creation
  transaction first, `deploy_light_client_contract`, the proxy procedure,
  and `main`.
- `RunInvariants`: the run invariant (every log entry was broadcast with
  resolved inputs, targets are pairwise distinct, a failed broadcast is the
  last entry, every recorded address is supplied or logged) and one
  preservation lemma per procedure.
- `RunProperties`: properties of a whole run derived from the invariant.
- `EnvFile`: the text of the output (`NAME=0x<40 hex digits>` per line), a
  reader for it, and the two ways of opening the output file discussed
  under Findings.

Where the code and its documentation differ, the model follows the code.
The documentation says a contract whose address is already known is
skipped. At the call sites `HotShot::deploy(l1, ())?` (line 241),
`PlonkVerifier::deploy(l1, ())?` (line 288) and
`LightClientStateUpdateVK::deploy(l1, ())?` (line 294), the creation
transaction is built before `deploy_tx` consults the cache, so building
it can fail even for a supplied contract. `BuildAndDeployTx` models this,
and the failure clause of `RunInvariants.BuildAndDeployTxStep` only promises
that a contract absent before the step stays absent.

## Model

| member | source | states |
|---|---|---|
| ContractIds.ContractNamed | sequencer/src/bin/deploy.rs:122-135 | reading an environment-variable name gives the contract with that display name, and no contract when none has it |
| ContractIds.DisplayNameRoundTrip | sequencer/src/bin/deploy.rs:124-135 | reading back the display name of a contract gives that contract |
| ContractIds.DisplayNamesDistinct | sequencer/src/bin/deploy.rs:124-135 | no two contracts share a display name, so a name identifies one registry key |
| ContractIds.DisplayName | sequencer/src/bin/deploy.rs:125-134 | every display name consists only of upper-case letters and underscores, so it contains neither `=` nor a line break, and all share the `ESPRESSO_SEQUENCER_` prefix; its partners `ContractNamed` and `DisplayNameRoundTrip` read a name back to its contract |
| Registry.FromDeployed | sequencer/src/bin/deploy.rs:146-165 | the initial registry holds exactly the contracts whose pre-deployed option is `Some`, each at the supplied address |
| Registry.DeployFn | sequencer/src/bin/deploy.rs:175-190 | a cached name returns its address with the state untouched and the procedure not consulted; otherwise the procedure's result and log are passed on, success records the name at the returned address on top of the procedure's registry, failure leaves the procedure's state (its recorded dependencies included) and does not record the name |
| Registry.DeployFnIdempotent | sequencer/src/bin/deploy.rs:175-190 | after a successful `deploy_fn`, a second one for the same name, with any procedure, returns the same address and changes nothing |
| Registry.Entries | sequencer/src/bin/deploy.rs:214-220 | the output holds the pair (display name of c, a) exactly when the registry maps c to a, and every entry's name reads back as a contract |
| Registry.EntriesRoundTrip | sequencer/src/bin/deploy.rs:214-220 | reading the output entries back by display name recovers exactly the registry |
| Registry.EntriesOnePerKey | sequencer/src/bin/deploy.rs:214-220 | the output has exactly one entry per registry key |
| Orchestration.Broadcast | sequencer/src/bin/deploy.rs:204-211 | sending a transaction leaves the registry alone and appends exactly that transaction with the network's answer to the log; it succeeds exactly when the network returns an address, with that address, and otherwise fails with a transaction error naming the target; `RunInvariants.BroadcastStep` is the invariant it keeps |
| Orchestration.DeployTx | sequencer/src/bin/deploy.rs:195-212 | a cached name returns its recorded address with nothing broadcast; otherwise exactly one plain transaction for the name is logged, success comes exactly from a network answer and records the name at the returned address, and failure leaves the registry unchanged; `RunInvariants.DeployTxStep` is the invariant it keeps |
| Orchestration.BuildAndDeployTx | sequencer/src/bin/deploy.rs:286-295 | at these call sites and at line 241, when the creation transaction cannot be built the step fails with the state untouched, even for a cached name; a built transaction for a cached name returns the recorded address; at most one plain transaction for the name is logged, and success implies the transaction was built and the name is recorded; `RunInvariants.BuildAndDeployTxStep` is the invariant it keeps |
| Orchestration.LinkAndDeployLightClient | sequencer/src/bin/deploy.rs:298-331 | the registry is unchanged, and the light client is broadcast (against exactly the two library addresses given) if and only if reading, linking and byte extraction succeed and its creation transaction can be built; success implies it was broadcast; `RunInvariants.LinkAndDeployLightClientStep` is the invariant it keeps |
| Orchestration.DeployLightClientContract | sequencer/src/bin/deploy.rs:280-332 | the log only grows; success implies both libraries are recorded, all three transactions were built, linking passed for the recorded library addresses, and the last broadcast is the light client linked against exactly those addresses, answered with the returned address; `RunInvariants.DeployLightClientContractStep` is the invariant it keeps |
| Orchestration.DeployProxy | sequencer/src/bin/deploy.rs:244-267 | the log only grows; success implies the light client is recorded, the genesis fetch and the calldata succeeded, the proxy transaction was built, and the last broadcast is the proxy over the recorded light client address, answered with the returned address; `RunInvariants.DeployProxyStep` is the invariant it keeps |
| Orchestration.RunDeploy | sequencer/src/bin/deploy.rs:224-278 | without a connection the run fails at once with the supplied registry and nothing broadcast; written output implies the connection, the HotShot transaction build and the output step succeeded, HotShot and the proxy are recorded, and the output is the registry's entries; `RunInvariants.RunInv` is the invariant a run keeps |
| RunInvariants.BroadcastStep | sequencer/src/bin/deploy.rs:204-211 | broadcasting a transaction whose inputs are resolved keeps the run invariant, logs exactly that transaction, yields a pending registration on success, and succeeds whenever the network answers |
| RunInvariants.DeployFnStep | sequencer/src/bin/deploy.rs:175-190 | if the procedure handed to `deploy_fn` keeps the invariant and only logs contracts in a given set, then `deploy_fn` keeps it, records the name on success, and leaves an absent name absent on failure |
| RunInvariants.DeployTxStep | sequencer/src/bin/deploy.rs:195-212 | `deploy_tx` of an already built transaction for HotShot, or for a library while neither the light client nor the proxy is resolved, keeps the invariant, logs at most that contract, records it at the returned address on success, and succeeds when every outside step succeeds |
| RunInvariants.BuildAndDeployTxStep | sequencer/src/bin/deploy.rs:285-296 | building the transaction and then calling `deploy_tx` keeps the invariant, records the contract on success only if its transaction could be built, never records a previously absent contract on failure, and succeeds when every outside step succeeds |
| RunInvariants.LinkAndDeployLightClientStep | sequencer/src/bin/deploy.rs:298-331 | given recorded libraries whose transactions were built, the light client is broadcast only with all linking checks passed and against the recorded library addresses; the invariant, which notes for each light client broadcast that both library transactions were built, is kept |
| RunInvariants.DeployLightClientContractStep | sequencer/src/bin/deploy.rs:280-332 | `deploy_light_client_contract` keeps the invariant, logs only the two libraries and the light client, and succeeds in a cooperative environment |
| RunInvariants.DeployProxyStep | sequencer/src/bin/deploy.rs:243-268 | the proxy procedure keeps the invariant, logs only contracts of the light client chain, and succeeds in a cooperative environment |
| RunInvariants.RunInv | sequencer/src/bin/deploy.rs:224-278 | every run ends in a state satisfying the run invariant; written output implies every broadcast succeeded, both top-level contracts are recorded and the output is the registry's entries; a cooperative environment always produces output |
| RunProperties.AtMostOnceDeployment | sequencer/src/bin/deploy.rs:180-188 | no contract is broadcast twice in a run, and no supplied contract is broadcast at all |
| RunProperties.NoAddressOverwritten | sequencer/src/bin/deploy.rs:180-188 | supplied addresses survive unchanged, every created contract is recorded at the address the network returned, and every recorded address is one of these |
| RunProperties.ResolvedIsRecorded | sequencer/src/bin/deploy.rs:180-188 | an address resolved for a contract before some broadcast is the address finally recorded for it |
| RunProperties.LibrariesBeforeLightClient | sequencer/src/bin/deploy.rs:285-330 | every light client broadcast follows the resolution of both libraries, uses exactly their recorded addresses, and happens only after both library transactions were built and linking left no placeholder |
| RunProperties.LightClientBeforeProxy | sequencer/src/bin/deploy.rs:248-261 | every proxy broadcast follows the resolution of the light client, points at its recorded address, and happens only after the genesis fetch, the `initialize` calldata and the proxy transaction build succeeded |
| RunProperties.FailedBroadcastEndsRun | sequencer/src/bin/deploy.rs:240-268 | a failed broadcast is the last one, its contract stays unrecorded, and nothing is written |
| RunProperties.FailedKeyLibraryBlocksDependents | sequencer/src/bin/deploy.rs:291-296 | when the key library's broadcast fails, only HotShot and the two libraries were ever broadcast and nothing is written |
| RunProperties.OutputDescribesRegistry | sequencer/src/bin/deploy.rs:240-275 | output is produced only with HotShot and the proxy recorded, and it has one entry per key and reads back to the final registry |
| RunProperties.HotShotFailureStopsRun | sequencer/src/bin/deploy.rs:240-242 | when the HotShot step fails, only HotShot was ever broadcast and nothing is written |
| RunProperties.HotShotBroadcastFailure | sequencer/src/bin/deploy.rs:240-242 | a failing HotShot broadcast ends the run after that single broadcast with the supplied registry and a transaction error for HotShot |
| RunProperties.ProxySuppliedDeploysOnlyHotShot | sequencer/src/bin/deploy.rs:35-45 | the other incremental deployment: with the proxy supplied, the proxy, light client and libraries are cache hits, so a run broadcasts at most one transaction, for HotShot |
| RunProperties.FullySuppliedRunDeploysNothing | sequencer/src/bin/deploy.rs:240-268 | with all five addresses supplied, nothing is broadcast, the registry stays as supplied, and output is written exactly when the connection, the HotShot transaction build and the output succeed |
| RunProperties.NothingToDeploy | sequencer/src/bin/deploy.rs:180-183 | a run state that started with every contract known has broadcast nothing and recorded nothing new |
| RunProperties.DistinctTargetsCount | sequencer/src/bin/deploy.rs:180-188 | a log whose broadcasts target pairwise distinct contracts has as many targets as entries |
| RunProperties.EveryBroadcastPrepared | sequencer/src/bin/deploy.rs:240-331 | every broadcast of a run was preceded by the outside steps its call site performs first: the transaction build for a plain contract; both library builds, linking and the light client build for the light client; the genesis fetch, calldata and proxy build for the proxy |
| RunProperties.LibraryBuildFailureBlocksOutput | sequencer/src/bin/deploy.rs:285-296 | with neither the light client nor the proxy supplied, output is written only if both library transactions could be built, so a failing key-library build blocks the output even when that library was supplied |
| RunProperties.ProxyNeedsLightClient | sequencer/src/bin/deploy.rs:248-261 | a created proxy implies a created light client unless the light client was supplied |
| RunProperties.LightClientNeedsLibraries | sequencer/src/bin/deploy.rs:285-330 | a created light client implies both libraries were created unless supplied |
| RunProperties.ChainFromHotShotOnly | sequencer/src/bin/deploy.rs:240-268 | from a registry holding only HotShot, a healthy run that recorded the proxy broadcast exactly the other four contracts, once each |
| RunProperties.OnlyHotShotSuppliedDeploysFour | sequencer/src/bin/deploy.rs:35-45 | an incremental deployment given only HotShot that writes output has deployed exactly the four other contracts, once each, and writes five entries with HotShot's address unchanged; in a cooperative environment it always writes output |
| EnvFile.HexRoundTrip | sequencer/src/bin/deploy.rs:217 | a number below 16^w written as w hexadecimal digits parses back to itself |
| EnvFile.AddressRoundTrip | sequencer/src/bin/deploy.rs:217 | an address formatted with `{:#x}` as `0x` and forty digits parses back to itself |
| EnvFile.FormatAddress | sequencer/src/bin/deploy.rs:217 | `{:#x}` of an address is `0x` followed by forty hexadecimal digits; its partner `AddressRoundTrip` parses it back |
| EnvFile.Line | sequencer/src/bin/deploy.rs:217 | one written line is the display name, `=`, and 42 more characters, with its only line break at the end; its partner `ParseLineRoundTrip` reads it back |
| EnvFile.Render | sequencer/src/bin/deploy.rs:215-219 | the text is empty exactly when no contract is listed and otherwise ends in a line break; its partner `RenderParses` reads it back as the listed part of the registry |
| EnvFile.ParseLineRoundTrip | sequencer/src/bin/deploy.rs:217 | a `NAME=0x...` line parses back to its contract and address |
| EnvFile.RenderParses | sequencer/src/bin/deploy.rs:215-219 | the lines written for a duplicate-free listing of registry keys read back as exactly the listed part of the registry |
| EnvFile.WriteTruncating | sequencer/src/bin/deploy.rs:270-272 | output written to a truncated file reads back as exactly the registry, whatever the file held before |
| EnvFile.WriteInPlace | sequencer/src/bin/deploy.rs:271-272 | output written without truncation starts with the new text, is as long as the longer of the old file and the new text, and beyond the new text keeps the old file's content unchanged |
| EnvFile.InPlaceKeepsStaleEntries | sequencer/src/bin/deploy.rs:271-272 | writing without truncation over a file that listed more contracts, whose lines list the new registry's contracts first and in the same order, reads back as the new registry plus the stale entries of the extra contracts |
| EnvFile.RerunLeavesStaleLines | sequencer/src/bin/deploy.rs:271 | a rerun with HotShot and the proxy supplied, over a five-line file from a full deployment, with HotShot and the proxy written first in both runs, leaves a file that reads back with the old verifier, key and light client addresses |
| EnvFile.RerunTruncatedReadsBack | sequencer/src/bin/deploy.rs:271 | the same rerun with a truncated file reads back as the two-entry registry |

## Left out

- Command-line and environment parsing (`Options`, the clap attributes of `DeployedContracts`, `From<Contract> for OsStr`): the pre-supplied addresses are the `Predeployed` record directly.
- Provider, chain-id query, mnemonic and wallet derivation, and the signer: one `connected` outcome.
- Building a creation transaction (`X::deploy(l1, args)?`), sending it and awaiting its receipt: `deployer(c)` and the `send(n, tx)` oracle; the constructor arguments, gas and nonces are not modelled.
- Reading `LightClient.json`, `link_fully_qualified(..).resolve()`, `is_unlinked` and `as_bytes`: boolean outcomes (`linkPlonk` and `linkVk` may depend on the library addresses), without the bytecode itself.
- The genesis fetch from the orchestrator and the ABI encoding of `initialize(genesis, u32::MAX)`: boolean outcomes; the proxy transaction records only the implementation address, not the calldata.
- Logging, backtraces and the `tracing::info!` notifications: no effect on state.
- Async execution: the flow is sequential and the state is threaded explicitly.
- `HashMap` iteration order: the run's output is a set of pairs; the file model takes the order as a parameter.
- Writing to stdout when no output path is given, and an I/O error part-way through `write`: the output step is one all-or-nothing `output` outcome, so a partially written file is not modelled.
- An in-place write whose new text ends part-way through an old line (the old file listed the contracts in another order): only `EnvFile.WriteInPlace`'s layout clauses cover it; no lemma states how such a file reads back (the reader refuses the broken line).
- The content of error messages and `anyhow` contexts: each failure is a distinct `Error` value naming the step. The model also names the contract at every build failure (`DeployerUnavailable`) and broadcast failure (`TransactionFailed`); the code's errors name it only in the two linking contexts.

## Findings

| source | as written | input that shows it | evidently intended | confidence | as-written member | corrected member |
|---|---|---|---|---|---|---|
| sequencer/src/bin/deploy.rs:271 | the output file is opened with `create(true).write(true)` and no `truncate(true)`, so new lines overwrite the start of an existing file and any longer old content stays after them | a full deployment writes five lines to OUT, HotShot and the proxy first; a second run with the HotShot and a new proxy address supplied writes two lines, again HotShot then the proxy, to the same OUT, and the old verifier, key and light client lines remain, so OUT lists five contracts, three of them (verifier, key, light client) not in this run's registry | the file holds exactly the final registry, one line per key | not executed | EnvFile.WriteInPlace (shown by EnvFile.InPlaceKeepsStaleEntries and EnvFile.RerunLeavesStaleLines) | EnvFile.WriteTruncating (with EnvFile.RerunTruncatedReadsBack) |
