/*
 * The system-chaincode lifecycle layer of a PalletOne peer: deciding whether a
 * built-in ("system") chaincode is enabled, binding it in the in-process
 * registry, deploying it on a chain through the chaincode provider, and
 * stopping it again.
 *
 * The registry and the provider are foreign code. The registry is modelled as
 * a map from path to chaincode handle, with a fixed set of paths it refuses;
 * the provider as an append-only log of the calls made to it, where what the
 * provider answers is an input to the call.
 */
module Scc {

  datatype Option<T> = None | Some(value: T)

  newtype Byte = b: int | 0 <= b < 256

  /** Identity of a `shim.Chaincode` implementation object; never inspected here. */
  datatype ChaincodeHandle = ChaincodeHandle(id: nat)

  /** Metadata of one system chaincode. */
  datatype SystemChaincode = SystemChaincode(
    name: string,
    path: string,
    initArgs: seq<seq<Byte>>,
    chaincode: ChaincodeHandle,
    invokableExternal: bool,
    invokableCC2CC: bool,
    enabled: bool)

  /** The Go `error` values this layer produces or passes on; `nil` is `None`. */
  datatype Error =
    | SysCCRegisteredErr(path: string)            // the registry already binds `path`
    | RegistryErr(msg: string)                    // any other failure of the registry
    | CouldNotRegister(path: string, cause: Error) // registerSysCC's wrapping of such a failure
    | ProviderErr(msg: string)                    // an error of the chaincode provider

  /** The in-process registry's bindings, keyed by chaincode path. */
  type Registry = map<string, ChaincodeHandle>

  datatype ChaincodeType = Undefined | Golang | Node | Car | Java
  datatype ExecEnv = Docker | System
  datatype ChaincodeID = ChaincodeID(path: string, name: string)
  datatype ChaincodeInput = ChaincodeInput(args: seq<seq<Byte>>)
  datatype ChaincodeSpec = ChaincodeSpec(ccType: ChaincodeType, chaincodeId: ChaincodeID, input: ChaincodeInput)
  datatype ChaincodeDeploymentSpec =
    ChaincodeDeploymentSpec(execEnv: ExecEnv, chaincodeSpec: ChaincodeSpec, codePackage: seq<Byte>)

  /** The context the provider hands out for (chain, name, version, txid, isSystem). */
  datatype CCContext = CCContext(chainID: string, name: string, version: string, txID: string, syscc: bool)

  datatype ProviderOp = Execute | Stop

  /** One call made to the chaincode provider, with the error it answered. */
  datatype ProviderCall = ProviderCall(op: ProviderOp, ctx: CCContext, spec: ChaincodeDeploymentSpec, reply: Option<Error>)

  /** What registerSysCC returns: the registered flag and the error. */
  datatype Registration = Registration(registered: bool, err: Option<Error>)

  // ---------------------------------------------------------------------------
  // Whitelist policy and deployment spec

  /** The configuration values that switch a system chaincode on (compared case-sensitively). */
  const WhitelistValues: set<string> := {"enable", "true", "yes"}

  /** isWhitelisted, with the `chaincode.system` configuration map passed in. */
  function IsWhitelisted(cc: SystemChaincode, config: map<string, string>): (r: bool)
    ensures r <==> cc.name in config && config[cc.name] in WhitelistValues
  {
    var ok := cc.name in config;
    var val := if ok then config[cc.name] else "";  // Go's zero value for a missing key
    var enabled := val == "enable" || val == "true" || val == "yes";
    ok && enabled
  }

  /** The gate registerSysCC and deploySysCC both apply before doing anything. */
  predicate Admissible(cc: SystemChaincode, config: map<string, string>)
    ensures Admissible(cc, config)
        <==> cc.enabled && cc.name in config && config[cc.name] in WhitelistValues
  {
    cc.enabled && IsWhitelisted(cc, config)
  }

  /** The chaincode spec deploySysCC and DeDeploySysCC both build from a descriptor. */
  function SysCCSpec(cc: SystemChaincode): (s: ChaincodeSpec)
    ensures s.ccType == Golang
    ensures s.chaincodeId.name == cc.name && s.chaincodeId.path == cc.path
    ensures s.input.args == cc.initArgs
  {
    ChaincodeSpec(Golang, ChaincodeID(cc.path, cc.name), ChaincodeInput(cc.initArgs))
  }

  /** buildSysCC: wraps the spec for the SYSTEM environment without a code package; it never fails. */
  function BuildSysCC(spec: ChaincodeSpec): (d: ChaincodeDeploymentSpec)
    ensures d.execEnv == System && d.codePackage == []
    ensures d.chaincodeSpec == spec
  {
    ChaincodeDeploymentSpec(System, spec, [])
  }

  /** The deployment spec of a descriptor is determined by, and determines, its name, path and init args. */
  lemma DeploymentSpecIdentifiesDescriptor(a: SystemChaincode, b: SystemChaincode)
    ensures BuildSysCC(SysCCSpec(a)) == BuildSysCC(SysCCSpec(b))
        <==> a.name == b.name && a.path == b.path && a.initArgs == b.initArgs
  {
  }

  /** Every call this layer makes to the provider has this shape. */
  predicate IsSysCCCall(c: ProviderCall, version: string)
  {
    && c.ctx.syscc
    && c.ctx.version == version
    && c.spec.execEnv == System
    && c.spec.codePackage == []
    && c.spec.chaincodeSpec.ccType == Golang
    && c.ctx.name == c.spec.chaincodeSpec.chaincodeId.name
    && (c.op == Stop ==> c.ctx.txID == "")
  }

  // ---------------------------------------------------------------------------
  // Registration, as functions of the registry's bindings

  /**
   * What the foreign registry's Register answers for `path`: already
   * registered, a refusal (the paths in `refusals`, with their message), or nil.
   */
  function BindReply(bindings: Registry, refusals: map<string, string>, path: string): (r: Option<Error>)
    ensures r.None? <==> path !in bindings && path !in refusals
    ensures r.Some? && r.value.SysCCRegisteredErr? <==> path in bindings
    ensures r.Some? ==> r.value.SysCCRegisteredErr? || r.value.RegistryErr?
  {
    if path in bindings then Some(SysCCRegisteredErr(path))
    else if path in refusals then Some(RegistryErr(refusals[path]))
    else None
  }

  /** The registry after Register(path, impl): a new binding exactly when it answered nil. */
  function Bind(bindings: Registry, refusals: map<string, string>, path: string, impl: ChaincodeHandle): (r: Registry)
    ensures path in r <==> path in bindings || path !in refusals
    ensures path !in bindings && path in r ==> r[path] == impl
  {
    if BindReply(bindings, refusals, path).None? then bindings[path := impl] else bindings
  }

  /** What registerSysCC returns for `cc` against the registry `bindings`. */
  function RegisterOutcome(cc: SystemChaincode, config: map<string, string>,
                           bindings: Registry, refusals: map<string, string>): (r: Registration)
    ensures r.registered <==> Admissible(cc, config) && (cc.path in bindings || cc.path !in refusals)
    ensures !Admissible(cc, config) ==> r.err == None
    ensures Admissible(cc, config) && cc.path in bindings ==> r.err == Some(SysCCRegisteredErr(cc.path))
    ensures (Admissible(cc, config) && cc.path !in bindings && cc.path in refusals)
        ==> r.err == Some(CouldNotRegister(cc.path, RegistryErr(refusals[cc.path])))
    ensures Admissible(cc, config) && cc.path !in bindings && cc.path !in refusals ==> r.err == None
  {
    if !cc.enabled || !IsWhitelisted(cc, config) then Registration(false, None)
    else
      var err := BindReply(bindings, refusals, cc.path);
      if err.Some? && !err.value.SysCCRegisteredErr? then
        Registration(false, Some(CouldNotRegister(cc.path, err.value)))
      else
        Registration(true, err)
  }

  /** The registry after registerSysCC(cc). */
  function RegistryAfter(cc: SystemChaincode, config: map<string, string>,
                         bindings: Registry, refusals: map<string, string>): (r: Registry)
    ensures cc.path in r <==> cc.path in bindings || (Admissible(cc, config) && cc.path !in refusals)
    ensures cc.path !in bindings && cc.path in r ==> r[cc.path] == cc.chaincode
  {
    if Admissible(cc, config) then Bind(bindings, refusals, cc.path, cc.chaincode) else bindings
  }

  /**
   * registerSysCC adds at most the descriptor's path, and only when it is
   * admissible and not refused; every existing binding keeps its chaincode.
   */
  lemma RegistryAfterEffect(cc: SystemChaincode, config: map<string, string>,
                            bindings: Registry, refusals: map<string, string>)
    ensures var r := RegistryAfter(cc, config, bindings, refusals);
            && r.Keys == (if Admissible(cc, config) && cc.path !in refusals then bindings.Keys + {cc.path}
                          else bindings.Keys)
            && forall q :: q in bindings ==> r[q] == bindings[q]
  {
  }

  /** Registering the same descriptor again reports it registered, passing the already-registered error on. */
  lemma RegisterTwice(cc: SystemChaincode, config: map<string, string>,
                      bindings: Registry, refusals: map<string, string>)
    requires RegisterOutcome(cc, config, bindings, refusals).registered
    ensures RegisterOutcome(cc, config, RegistryAfter(cc, config, bindings, refusals), refusals)
         == Registration(true, Some(SysCCRegisteredErr(cc.path)))
  {
  }

  /** The paths of the descriptors in `descs`. */
  function Paths(descs: seq<SystemChaincode>): set<string>
  {
    if descs == [] then {} else {descs[0].path} + Paths(descs[1..])
  }

  /** The registry after RegisterSysCCs over `descs`, in order. */
  function RegisterAll(descs: seq<SystemChaincode>, config: map<string, string>,
                       bindings: Registry, refusals: map<string, string>): Registry
    decreases |descs|
  {
    if descs == [] then bindings
    else RegisterAll(descs[1..], config, RegistryAfter(descs[0], config, bindings, refusals), refusals)
  }

  /** What each registerSysCC call of RegisterSysCCs over `descs` returns, in order. */
  function RegisterOutcomes(descs: seq<SystemChaincode>, config: map<string, string>,
                            bindings: Registry, refusals: map<string, string>): (rs: seq<Registration>)
    ensures |rs| == |descs|
    decreases |descs|
  {
    if descs == [] then []
    else [RegisterOutcome(descs[0], config, bindings, refusals)]
         + RegisterOutcomes(descs[1..], config, RegistryAfter(descs[0], config, bindings, refusals), refusals)
  }

  /**
   * Only an enabled, whitelisted entry reports registered, and an entry that
   * reports false with an error reports the wrapped CouldNotRegister error.
   */
  lemma {:induction false} RegisterOutcomesSound(descs: seq<SystemChaincode>, config: map<string, string>,
                                                 bindings: Registry, refusals: map<string, string>, k: int)
    requires 0 <= k < |descs|
    ensures var r := RegisterOutcomes(descs, config, bindings, refusals)[k];
            && (r.registered ==> Admissible(descs[k], config))
            && (!r.registered && r.err.Some? ==> r.err.value.CouldNotRegister?)
    decreases |descs|
  {
    if k > 0 {
      RegisterOutcomesSound(descs[1..], config, RegistryAfter(descs[0], config, bindings, refusals), refusals, k - 1);
    }
  }

  /** One step of the batch: entry i is registered against the registry, then the rest of the list. */
  lemma RegisterStep(descs: seq<SystemChaincode>, i: int, config: map<string, string>,
                     bindings: Registry, refusals: map<string, string>)
    requires 0 <= i < |descs|
    ensures RegisterAll(descs[i..], config, bindings, refusals)
         == RegisterAll(descs[i + 1..], config, RegistryAfter(descs[i], config, bindings, refusals), refusals)
    ensures RegisterOutcomes(descs[i..], config, bindings, refusals)
         == [RegisterOutcome(descs[i], config, bindings, refusals)]
            + RegisterOutcomes(descs[i + 1..], config, RegistryAfter(descs[i], config, bindings, refusals), refusals)
  {
    assert descs[i..][0] == descs[i] && descs[i..][1..] == descs[i + 1..];
  }

  /**
   * Each entry is attempted exactly once, in order: the i-th outcome is what
   * registerSysCC returns for descs[i] against the registry the entries before
   * it left, whatever those entries returned.
   */
  lemma {:induction false} RegisterOutcomesInOrder(descs: seq<SystemChaincode>, config: map<string, string>,
                                                   bindings: Registry, refusals: map<string, string>, i: int)
    requires 0 <= i < |descs|
    ensures RegisterOutcomes(descs, config, bindings, refusals)[i]
         == RegisterOutcome(descs[i], config, RegisterAll(descs[..i], config, bindings, refusals), refusals)
    decreases |descs|
  {
    var next := RegistryAfter(descs[0], config, bindings, refusals);
    if i == 0 {
      assert descs[..0] == [];
    } else {
      var rest := RegisterOutcomes(descs[1..], config, next, refusals);
      assert RegisterOutcomes(descs, config, bindings, refusals)[i] == rest[i - 1];
      RegisterOutcomesInOrder(descs[1..], config, next, refusals, i - 1);
      assert descs[1..][..i - 1] == descs[..i][1..];
      assert descs[..i][0] == descs[0];
      assert RegisterAll(descs[..i], config, bindings, refusals)
          == RegisterAll(descs[..i][1..], config, next, refusals);
    }
  }

  /** Every path bound by registering a list is the path of one of its entries. */
  lemma {:induction false} RegisterAllNewKeysFromList(descs: seq<SystemChaincode>, config: map<string, string>,
                                                      bindings: Registry, refusals: map<string, string>)
    ensures bindings.Keys <= RegisterAll(descs, config, bindings, refusals).Keys <= bindings.Keys + Paths(descs)
    decreases |descs|
  {
    if descs != [] {
      var next := RegistryAfter(descs[0], config, bindings, refusals);
      RegistryAfterEffect(descs[0], config, bindings, refusals);
      RegisterAllNewKeysFromList(descs[1..], config, next, refusals);
    }
  }

  /** Registration never removes or rebinds an existing binding. */
  lemma {:induction false} RegisterAllKeepsBindings(descs: seq<SystemChaincode>, config: map<string, string>,
                                                    bindings: Registry, refusals: map<string, string>)
    ensures forall p :: p in bindings ==>
              p in RegisterAll(descs, config, bindings, refusals)
              && RegisterAll(descs, config, bindings, refusals)[p] == bindings[p]
    decreases |descs|
  {
    if descs != [] {
      RegisterAllKeepsBindings(descs[1..], config, RegistryAfter(descs[0], config, bindings, refusals), refusals);
    }
  }

  /**
   * A new binding comes only from an enabled, whitelisted descriptor whose path
   * the registry accepts, and it is the first such descriptor with that path.
   */
  lemma {:induction false} RegisterAllAddsOnlyAdmissible(descs: seq<SystemChaincode>, config: map<string, string>,
                                                         bindings: Registry, refusals: map<string, string>,
                                                         p: string)
    requires p in RegisterAll(descs, config, bindings, refusals) && p !in bindings
    ensures exists i :: 0 <= i < |descs| && descs[i].path == p && Admissible(descs[i], config)
                        && p !in refusals
                        && RegisterAll(descs, config, bindings, refusals)[p] == descs[i].chaincode
                        && (forall j :: 0 <= j < i ==> descs[j].path != p || !Admissible(descs[j], config))
    decreases |descs|
  {
    var d := descs[0];
    var next := RegistryAfter(d, config, bindings, refusals);
    if p in next {
      RegisterAllKeepsBindings(descs[1..], config, next, refusals);
      assert descs[0].path == p && Admissible(descs[0], config);
    } else {
      RegisterAllAddsOnlyAdmissible(descs[1..], config, next, refusals, p);
      var j :| 0 <= j < |descs[1..]| && descs[1..][j].path == p && Admissible(descs[1..][j], config)
               && p !in refusals
               && RegisterAll(descs[1..], config, next, refusals)[p] == descs[1..][j].chaincode
               && (forall k :: 0 <= k < j ==> descs[1..][k].path != p || !Admissible(descs[1..][k], config));
      assert descs[j + 1] == descs[1..][j];
      forall k | 0 <= k < j + 1
        ensures descs[k].path != p || !Admissible(descs[k], config)
      {
        if k > 0 {
          assert descs[k] == descs[1..][k - 1];
        }
      }
    }
  }

  /** A path the registry refuses is never bound by registration unless it was bound already. */
  lemma {:induction false} RegisterAllNeverBindsRefused(descs: seq<SystemChaincode>, config: map<string, string>,
                                                        bindings: Registry, refusals: map<string, string>)
    ensures forall p :: p in refusals && p !in bindings ==> p !in RegisterAll(descs, config, bindings, refusals)
    decreases |descs|
  {
    if descs != [] {
      RegisterAllNeverBindsRefused(descs[1..], config, RegistryAfter(descs[0], config, bindings, refusals), refusals);
    }
  }

  /**
   * One failing entry never keeps a later one from registering: every enabled,
   * whitelisted descriptor whose path the registry does not refuse ends up bound.
   */
  lemma {:induction false} RegisterAllBindsEveryAdmissible(descs: seq<SystemChaincode>, config: map<string, string>,
                                                           bindings: Registry, refusals: map<string, string>,
                                                           i: int)
    requires 0 <= i < |descs| && Admissible(descs[i], config) && descs[i].path !in refusals
    ensures descs[i].path in RegisterAll(descs, config, bindings, refusals)
    decreases |descs|
  {
    var next := RegistryAfter(descs[0], config, bindings, refusals);
    if i == 0 {
      RegisterAllKeepsBindings(descs[1..], config, next, refusals);
    } else {
      RegisterAllBindsEveryAdmissible(descs[1..], config, next, refusals, i - 1);
    }
  }

  /** Every descriptor that would bind something is already bound or refused. */
  ghost predicate Settled(descs: seq<SystemChaincode>, config: map<string, string>,
                          bindings: Registry, refusals: map<string, string>)
  {
    forall i :: 0 <= i < |descs| && Admissible(descs[i], config) ==>
      descs[i].path in bindings || descs[i].path in refusals
  }

  /** Registering a settled list changes nothing. */
  lemma {:induction false} RegisterAllSettled(descs: seq<SystemChaincode>, config: map<string, string>,
                                              bindings: Registry, refusals: map<string, string>)
    requires Settled(descs, config, bindings, refusals)
    ensures RegisterAll(descs, config, bindings, refusals) == bindings
    decreases |descs|
  {
    if descs != [] {
      assert RegistryAfter(descs[0], config, bindings, refusals) == bindings by {
        assert 0 < |descs|;
      }
      assert Settled(descs[1..], config, bindings, refusals) by {
        forall i | 0 <= i < |descs[1..]| && Admissible(descs[1..][i], config)
          ensures descs[1..][i].path in bindings || descs[1..][i].path in refusals
        {
          assert descs[1..][i] == descs[i + 1];
        }
      }
      RegisterAllSettled(descs[1..], config, bindings, refusals);
    }
  }

  /** After one pass, the list is settled. */
  lemma RegisterAllSettles(descs: seq<SystemChaincode>, config: map<string, string>,
                           bindings: Registry, refusals: map<string, string>)
    ensures Settled(descs, config, RegisterAll(descs, config, bindings, refusals), refusals)
  {
    forall i | 0 <= i < |descs| && Admissible(descs[i], config) && descs[i].path !in refusals
      ensures descs[i].path in RegisterAll(descs, config, bindings, refusals)
    {
      RegisterAllBindsEveryAdmissible(descs, config, bindings, refusals, i);
    }
  }

  /** Running RegisterSysCCs a second time leaves the registry as the first run left it. */
  lemma RegisterAllIdempotent(descs: seq<SystemChaincode>, config: map<string, string>,
                              bindings: Registry, refusals: map<string, string>)
    ensures var once := RegisterAll(descs, config, bindings, refusals);
            RegisterAll(descs, config, once, refusals) == once
  {
    var once := RegisterAll(descs, config, bindings, refusals);
    RegisterAllSettles(descs, config, bindings, refusals);
    RegisterAllSettled(descs, config, once, refusals);
  }

  /**
   * In a second run, every entry that registers reports the already-registered
   * error, and every entry the registry refused is refused again.
   */
  lemma SecondRunOutcomes(descs: seq<SystemChaincode>, config: map<string, string>,
                          bindings: Registry, refusals: map<string, string>, i: int)
    requires 0 <= i < |descs|
    ensures var once := RegisterAll(descs, config, bindings, refusals);
            var r := RegisterOutcomes(descs, config, once, refusals)[i];
            && ((Admissible(descs[i], config) && descs[i].path !in refusals)
                ==> r == Registration(true, Some(SysCCRegisteredErr(descs[i].path))))
            && (r.registered ==> r.err == Some(SysCCRegisteredErr(descs[i].path)))
            && ((Admissible(descs[i], config) && descs[i].path in refusals && descs[i].path !in bindings)
                ==> !r.registered)
  {
    var once := RegisterAll(descs, config, bindings, refusals);
    RegisterOutcomesInOrder(descs, config, once, refusals, i);
    RegisterAllSettles(descs, config, bindings, refusals);
    assert Settled(descs[..i], config, once, refusals) by {
      forall k | 0 <= k < |descs[..i]| && Admissible(descs[..i][k], config)
        ensures descs[..i][k].path in once || descs[..i][k].path in refusals
      {
        assert descs[..i][k] == descs[k];
      }
    }
    RegisterAllSettled(descs[..i], config, once, refusals);
    if Admissible(descs[i], config) && descs[i].path !in refusals {
      RegisterAllBindsEveryAdmissible(descs, config, bindings, refusals, i);
    }
    RegisterAllNeverBindsRefused(descs, config, bindings, refusals);
  }

  // ---------------------------------------------------------------------------
  // The peer state this layer drives

  /**
   * The in-process registry's bindings and the chaincode provider's call log,
   * with the paths the registry refuses and the system chaincode version.
   */
  class Peer {
    var registry: Registry
    var calls: seq<ProviderCall>
    const refusals: map<string, string>
    const sysCCVersion: string

    /**
     * Every provider call in the log was made the way this layer makes them. The
     * provider also serves user chaincodes, so this is not an invariant of the
     * peer; deploy and teardown keep it, and each call they add has this shape.
     */
    ghost predicate OnlySysCCCalls()
      reads this
    {
      forall k :: 0 <= k < |calls| ==> IsSysCCCall(calls[k], sysCCVersion)
    }

    constructor (bindings: Registry, refusals: map<string, string>, version: string)
      ensures OnlySysCCCalls()
      ensures registry == bindings && calls == []
      ensures this.refusals == refusals && sysCCVersion == version
    {
      registry := bindings;
      calls := [];
      this.refusals := refusals;
      sysCCVersion := version;
    }

    /** The foreign inproccontroller.Register. */
    method Register(path: string, impl: ChaincodeHandle) returns (err: Option<Error>)
      modifies this`registry
      ensures err == BindReply(old(registry), refusals, path)
      ensures err.None? ==> registry == old(registry)[path := impl]
      ensures err.Some? ==> registry == old(registry)
    {
      err := BindReply(registry, refusals, path);
      if err.None? {
        registry := registry[path := impl];
      }
    }

    /** registerSysCC. */
    method RegisterSysCC(cc: SystemChaincode, config: map<string, string>) returns (registered: bool, err: Option<Error>)
      modifies this`registry
      ensures Registration(registered, err) == RegisterOutcome(cc, config, old(registry), refusals)
      ensures registry == RegistryAfter(cc, config, old(registry), refusals)
      ensures !Admissible(cc, config) ==> registry == old(registry)
    {
      if !cc.enabled || !IsWhitelisted(cc, config) {
        return false, None;
      }
      err := Register(cc.path, cc.chaincode);
      if err.Some? && !err.value.SysCCRegisteredErr? {
        return false, Some(CouldNotRegister(cc.path, err.value));
      }
      registered := true;
    }

    /** RegisterSysCCs: registers every descriptor in turn, ignoring what each returns. */
    method RegisterSysCCs(descs: seq<SystemChaincode>, config: map<string, string>)
      returns (ghost outcomes: seq<Registration>)
      modifies this`registry
      ensures registry == RegisterAll(descs, config, old(registry), refusals)
      ensures outcomes == RegisterOutcomes(descs, config, old(registry), refusals)
    {
      outcomes := [];
      for i := 0 to |descs|
        invariant RegisterAll(descs[i..], config, registry, refusals)
               == RegisterAll(descs, config, old(registry), refusals)
        invariant outcomes + RegisterOutcomes(descs[i..], config, registry, refusals)
               == RegisterOutcomes(descs, config, old(registry), refusals)
      {
        RegisterStep(descs, i, config, registry, refusals);
        var registered, err := RegisterSysCC(descs[i], config);
        outcomes := outcomes + [Registration(registered, err)];
      }
      assert descs[|descs|..] == [];
    }

    /** The provider's ExecuteWithErrorFilter; `reply` is what it answers. */
    method ExecuteWithErrorFilter(ctx: CCContext, spec: ChaincodeDeploymentSpec, reply: Option<Error>)
      returns (err: Option<Error>)
      modifies this`calls
      ensures calls == old(calls) + [ProviderCall(Execute, ctx, spec, reply)]
      ensures err == reply
    {
      calls := calls + [ProviderCall(Execute, ctx, spec, reply)];
      err := reply;
    }

    /** The provider's Stop; `reply` is what it answers. */
    method StopChaincode(ctx: CCContext, spec: ChaincodeDeploymentSpec, reply: Option<Error>)
      returns (err: Option<Error>)
      modifies this`calls
      ensures calls == old(calls) + [ProviderCall(Stop, ctx, spec, reply)]
      ensures err == reply
    {
      calls := calls + [ProviderCall(Stop, ctx, spec, reply)];
      err := reply;
    }

    /**
     * deploySysCC: a disabled or non-whitelisted descriptor is skipped silently;
     * otherwise exactly one Execute call, whose error is returned unchanged.
     * `txid` is the fresh UUID, `reply` the provider's answer.
     */
    method DeploySysCC(chainID: string, cc: SystemChaincode, config: map<string, string>,
                       txid: string, reply: Option<Error>) returns (err: Option<Error>)
      modifies this`calls
      ensures old(OnlySysCCCalls()) ==> OnlySysCCCalls()
      ensures !Admissible(cc, config) ==> err == None && calls == old(calls)
      ensures Admissible(cc, config) ==>
                && calls == old(calls) + [ProviderCall(Execute, CCContext(chainID, cc.name, sysCCVersion, txid, true),
                                                       BuildSysCC(SysCCSpec(cc)), reply)]
                && err == calls[|calls| - 1].reply
                && IsSysCCCall(calls[|calls| - 1], sysCCVersion)
    {
      if !cc.enabled || !IsWhitelisted(cc, config) {
        return None;
      }
      var spec := SysCCSpec(cc);
      var deploymentSpec := BuildSysCC(spec);
      var version := sysCCVersion;
      var ctx := CCContext(chainID, deploymentSpec.chaincodeSpec.chaincodeId.name, version, txid, true);
      err := ExecuteWithErrorFilter(ctx, deploymentSpec, reply);
    }

    /**
     * DeDeploySysCC: no enable or whitelist check; exactly one Stop call with an
     * empty txid, whose error is returned verbatim.
     */
    method DeDeploySysCC(chainID: string, cc: SystemChaincode, reply: Option<Error>) returns (err: Option<Error>)
      modifies this`calls
      ensures old(OnlySysCCCalls()) ==> OnlySysCCCalls()
      ensures calls == old(calls) + [ProviderCall(Stop, CCContext(chainID, cc.name, sysCCVersion, "", true),
                                                  BuildSysCC(SysCCSpec(cc)), reply)]
      ensures err == calls[|calls| - 1].reply
      ensures IsSysCCCall(calls[|calls| - 1], sysCCVersion)
    {
      var spec := SysCCSpec(cc);
      var deploymentSpec := BuildSysCC(spec);
      var version := sysCCVersion;
      var ctx := CCContext(chainID, cc.name, version, "", true);
      err := StopChaincode(ctx, deploymentSpec, reply);
    }
  }
}
