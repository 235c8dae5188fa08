# System-chaincode lifecycle of a PalletOne peer, in Dafny

This project models the system-chaincode layer of the peer, `contracts/scc/sysccapi.go`.
System chaincodes are built-in chaincodes. The layer decides whether one is enabled: its static `Enabled` switch, and the `chaincode.system` whitelist in the configuration.
It binds an enabled one in the in-process registry (`registerSysCC`, and `RegisterSysCCs` over the whole list).
It deploys one on a chain through the chaincode provider (`deploySysCC`) and stops it again (`DeDeploySysCC`).

Everything is in `scc.dfy`, module `Scc`:

- `SystemChaincode` is the descriptor.
- `IsWhitelisted` and `BuildSysCC` are pure functions, as in the source.
- `SysCCSpec` is the chaincode spec (type GOLANG, id {path, name}, init args). Deploy and teardown both build this spec inline.
- The foreign collaborators are modelled as the state of class `Peer`:
  - the in-process registry is `registry`, a map from chaincode path to an opaque chaincode handle. `Peer.Register` models its `Register`: an already bound path gives `SysCCRegisteredErr`; a path in the constant `refusals` map gives any other failure, with its message; anything else binds and returns nil.
  - the chaincode provider is `calls`, an append-only log of `Execute`/`Stop` calls. Each entry records the context (chain ID, name, version, txid, is-system), the deployment spec, and the error the provider answered.
- The registration logic is also written as functions of the registry (`RegisterOutcome`, `RegistryAfter`, and over a list `RegisterAll` and `RegisterOutcomes`). The `Peer` methods are proved equal to these functions, and the list properties are lemmas about them.
- Go's `error` is `Option<Error>`; `nil` is `None`.

Two facts of the code shape the model:

- `isWhitelisted` (sysccapi.go:181-186) looks only at the configuration. The static `Enabled` switch is checked by its callers (lines 74 and 95), and `Admissible` models that combined gate.
- When the registry reports the path as already registered, `registerSysCC` returns `true` *together with* that error (line 90, reached from line 82). It does not return nil. A second registration of the same descriptor reports `true` with `SysCCRegisteredErr`.

## Model

| member | source | states |
|---|---|---|
| `Scc.Admissible` | contracts/scc/sysccapi.go:74 | the gate of registerSysCC and deploySysCC (lines 74 and 95): the Enabled flag is set and the config maps the name to "enable", "true" or "yes" |
| `Scc.SysCCSpec` | contracts/scc/sysccapi.go:125-126 | the chaincode spec built by deploy (125-126) and teardown (151-152): type GOLANG, id {Path, Name}, args = InitArgs |
| `Scc.BindReply` | contracts/scc/sysccapi.go:79 | the registry's answer to Register: nil iff the path is neither bound nor refused; SysCCRegisteredErr iff the path is bound; otherwise a RegistryErr |
| `Scc.Bind` | contracts/scc/sysccapi.go:79 | the registry's bindings after Register: the path is bound afterwards iff it was bound already or is not refused, and a new binding carries the given chaincode |
| `Scc.RegistryAfter` | contracts/scc/sysccapi.go:73-91 | the registry after registerSysCC: the path is bound afterwards iff it was bound already or the descriptor is admissible and not refused; a new binding carries the descriptor's chaincode |
| `Scc.RegistryAfterEffect` | contracts/scc/sysccapi.go:73-91 | registerSysCC adds exactly the descriptor's path when it is admissible and not refused, and nothing otherwise; every existing binding keeps its chaincode |
| `Scc.RegisterAllNewKeysFromList` | contracts/scc/sysccapi.go:189-194 | the registry after the loop (`RegisterAll`) keeps every key it had, and every new key is the path of some list entry |
| `Scc.RegisterOutcomes` | contracts/scc/sysccapi.go:189-194 | the loop's results: exactly one result per list entry |
| `Scc.RegisterOutcomesSound` | contracts/scc/sysccapi.go:189-194 | an entry of the loop reports registered only if it is enabled and whitelisted, and an entry reporting false with an error reports a CouldNotRegister error |
| `Scc.IsWhitelisted` | contracts/scc/sysccapi.go:181-186 | whitelisted iff the config has the chaincode's name as a key and its value is exactly one of "enable", "true", "yes"; a missing key gives false |
| `Scc.BuildSysCC` | contracts/scc/sysccapi.go:175-179 | total; the deployment spec has ExecEnv SYSTEM, keeps the given chaincode spec unchanged and has an empty code package |
| `Scc.DeploymentSpecIdentifiesDescriptor` | contracts/scc/sysccapi.go:125-129 | two descriptors get equal deployment specs iff their name, path and init args are equal, so teardown rebuilds exactly the spec that deploy built |
| `Scc.RegisterOutcome` | contracts/scc/sysccapi.go:73-91 | registered iff enabled, whitelisted, and the path is either bound already or accepted by the registry; disabled gives (false, nil); already bound gives true with SysCCRegisteredErr; a refusal gives false with a CouldNotRegister error wrapping the registry's error; a fresh bind gives (true, nil) |
| `Scc.RegisterTwice` | contracts/scc/sysccapi.go:79-90 | after a registration that reported true, registering the same descriptor again reports true with SysCCRegisteredErr for its path |
| `Scc.RegisterOutcomesInOrder` | contracts/scc/sysccapi.go:189-194 | RegisterSysCCs registers every entry once, in list order: the i-th result is registerSysCC of entry i against the registry the earlier entries left, whatever they returned |
| `Scc.RegisterAllKeepsBindings` | contracts/scc/sysccapi.go:189-194 | registering a list never removes or rebinds an existing registry binding |
| `Scc.RegisterAllAddsOnlyAdmissible` | contracts/scc/sysccapi.go:189-194 | every new binding comes from an enabled, whitelisted entry with that path that the registry does not refuse, the first such entry in the list, and is bound to that entry's chaincode |
| `Scc.RegisterAllBindsEveryAdmissible` | contracts/scc/sysccapi.go:189-194 | a failing entry never blocks later ones: every enabled, whitelisted entry whose path the registry does not refuse is bound afterwards |
| `Scc.RegisterAllIdempotent` | contracts/scc/sysccapi.go:189-194 | running RegisterSysCCs a second time leaves the registry exactly as the first run left it (given that the registry's refusals are permanent, see Left out) |
| `Scc.RegisterAllNeverBindsRefused` | contracts/scc/sysccapi.go:189-194 | a path the registry refuses and that was not bound before is still unbound after registering the list |
| `Scc.SecondRunOutcomes` | contracts/scc/sysccapi.go:189-194 | in a second run every enabled, whitelisted entry the registry does not refuse reports (true, SysCCRegisteredErr), every entry that reports true reports that error, and an enabled, whitelisted entry whose path was refused and unbound is refused again (given permanent refusals) |
| `Scc.Peer.Register` | contracts/scc/sysccapi.go:79 | model of the registry's Register: already bound gives SysCCRegisteredErr, a refused path gives its error, otherwise binds path to the chaincode and returns nil; the registry changes only in that last case |
| `Scc.Peer.RegisterSysCC` | contracts/scc/sysccapi.go:73-91 | returns exactly RegisterOutcome and leaves the registry as RegistryAfter; a disabled or non-whitelisted descriptor leaves the registry untouched |
| `Scc.Peer.RegisterSysCCs` | contracts/scc/sysccapi.go:189-194 | the registry afterwards is RegisterAll over the list, and the ghost outcomes are RegisterOutcomes; no result stops the loop |
| `Scc.Peer.ExecuteWithErrorFilter` | contracts/scc/sysccapi.go:139 | the provider call: appends one Execute entry to the log and returns the provider's error |
| `Scc.Peer.StopChaincode` | contracts/scc/sysccapi.go:169 | the provider call: appends one Stop entry to the log and returns the provider's error |
| `Scc.Peer.DeploySysCC` | contracts/scc/sysccapi.go:94-147 | disabled or non-whitelisted: returns nil and logs nothing; otherwise appends exactly one Execute call with context (chainID, name, system version, the fresh txid, isSystem) and the SYSTEM deployment spec, and returns that call's error unchanged; the added call is system-shaped (isSystem, SYSTEM spec, context name = spec name, the system version), so a log of only system calls stays one |
| `Scc.Peer.DeDeploySysCC` | contracts/scc/sysccapi.go:150-172 | no enable/whitelist check; appends exactly one Stop call with an empty txid, isSystem, the same deployment spec deploy uses, and returns Stop's error verbatim; the added call is system-shaped, so a log of only system calls stays one |

## Left out

- Logging through `sysccLogger` is left out because it only makes the layer observable.
- Reading `chaincode.system` through viper, including its key normalisation, is left out. The map is a parameter.
- The internals of the registry (`inproccontroller.Register`) are foreign code. Its failures other than "already registered" are modelled by the fixed `refusals` map of `Peer`, so a refusal is permanent: a refused path is refused on every later attempt. A transient registry failure is not modelled; with one, a second `RegisterSysCCs` could add bindings. `RegisterAllIdempotent`, `RegisterAllNeverBindsRefused` and `SecondRunOutcomes` depend on refusals being permanent; the source itself does not promise this.
- Scc.Peer.DeDeploySysCC: the source's doc comment (line 149) says it also deregisters the chaincode from the in-process registry, but the code only calls the provider's `Stop` (line 169). Any deregistration would happen inside the foreign `Stop`. In the model, teardown leaves `registry` untouched, so a `RegisterSysCC` after `DeDeploySysCC` reports `SysCCRegisteredErr`.
- The chaincode provider (`GetChaincodeProvider`, `GetCCContext`, `ExecuteWithErrorFilter`, `Stop`) is foreign code. Its answer is the `reply` parameter, and the two `nil` arguments of `GetCCContext` are dropped.
- `util.GenerateUUID` is foreign code; the fresh txid is the `txid` parameter.
- `util.GetSysCCVersion` is foreign code; the version is the constant `Peer.sysCCVersion`, shared by deploy and teardown.
- `context.Context` values are plumbing. The commented-out ledger and tx-simulator block (lines 106-124) is dead code.
- buildSysCC's error result is always nil, so the error branches at lines 131-134 and 158-161 cannot be reached. `BuildSysCC` returns the deployment spec directly.
- The message built by `fmt.Sprintf` at line 83 and wrapped by `fmt.Errorf` at line 85 is modelled as the structured error `CouldNotRegister(path, cause)`. The descriptor's `%v` rendering is not part of it.
- The `Chaincode` object is carried as an opaque handle. The `InvokableExternal` and `InvokableCC2CC` flags are carried but never read.
- The global `systemChaincodes` list is defined in a file that is not part of this model. `RegisterSysCCs` takes the list as a parameter.
- Concurrency is left out: concurrent deploy/stop on the same chain and chaincode is the callers' concern, and the model is sequential.
