/**
 * The EVM chain set: a registry of chains keyed by the decimal string of
 * their chain ID, with lookup, default resolution, construction from the
 * database's chain records, runtime enable/disable and aggregate lifecycle
 * calls. `newChain`, the ORM and each chain's own Start/Close/Healthy/Ready
 * are collaborators whose answers are parameters; `multierr.Combine` is
 * concatenation of error lists, the empty list standing for nil.
 */
module Evm {
  import opened Wrappers
  import Decimal

  datatype NodeCfg = NodeCfg(name: string, wsURL: string, sendOnly: bool)

  /** A chain record as the ORM stores it (`types.Chain`); its config blob is opaque and left out. */
  datatype DbChain = DbChain(id: int, enabled: bool, nodes: seq<NodeCfg>)

  /** A running chain, built by `newChain` from a record; `instance` tells apart separately built objects. */
  datatype Chain = Chain(id: int, nodes: seq<NodeCfg>, instance: nat)

  datatype Error =
    | NoChains                  // ErrNoChains
    | NoDefaultChainID          // "no default chain ID specified"
    | ChainNotFound(id: int)    // "chain not found with id %d"
    | DuplicateChain(cid: string)
    | LoggerMissing             // "logger must be non-nil"
    | ConfigMissing             // "config must be non-nil"
    | LoadingChains(cause: string)
    | External(message: string) // an error returned by a collaborator

  /** A `multierr` aggregate: empty means nil. */
  type Errors = seq<Error>

  /**
   * What `newChain` returns. `NoPrimaryNode` is an error whose cause is
   * `ErrNoPrimaryNode`; it carries the chain value returned alongside it,
   * which `Configure` goes on to start.
   */
  datatype BuildOutcome = Built(instance: nat) | NoPrimaryNode(instance: nat) | BuildFailed(cause: Error)

  /** The registry key of a chain ID, `id.String()`. */
  function Key(id: int): string
  {
    Decimal.IntToString(id)
  }

  function ChainOf(db: DbChain, instance: nat): Chain
  {
    Chain(db.id, db.nodes, instance)
  }

  /** Every entry is stored under the key of its own chain ID. */
  predicate WellKeyed(m: map<string, Chain>)
  {
    forall cid :: cid in m ==> cid == Key(m[cid].id)
  }

  // ---------------------------------------------------------------------------
  // Construction

  datatype Opts = Opts(hasLogger: bool, hasConfig: bool, defaultChainID: Option<int>, evmDisabled: bool)

  /** `checkOpts`; a missing ORM is replaced by a default one, which cannot fail. */
  function CheckOpts(opts: Opts): (r: Option<Error>)
    ensures r.None? <==> opts.hasLogger && opts.hasConfig
    ensures !opts.hasLogger ==> r == Some(LoggerMissing)
  {
    if !opts.hasLogger then Some(LoggerMissing)
    else if !opts.hasConfig then Some(ConfigMissing)
    else None
  }

  /** The registry `NewChainSet` has built so far, or the duplicate that aborted it. */
  datatype Registry = Loaded(chains: map<string, Chain>, errs: Errors) | Duplicate(cid: string)

  /** One iteration of the `NewChainSet` loop. */
  function LoadStep(m: map<string, Chain>, errs: Errors, db: DbChain, outcome: BuildOutcome): Registry
  {
    match outcome
    case NoPrimaryNode(_) => Loaded(m, errs)
    case BuildFailed(e) => Loaded(m, errs + [e])
    case Built(inst) =>
      if Key(db.id) in m then Duplicate(Key(db.id)) else Loaded(m[Key(db.id) := ChainOf(db, inst)], errs)
  }

  /** The outcome of the `NewChainSet` loop over `dbchains`. */
  function BuildRegistry(dbchains: seq<DbChain>, newChain: DbChain -> BuildOutcome): (r: Registry)
    ensures r.Loaded? ==> |r.errs| <= |dbchains|
    ensures r.Duplicate? ==> dbchains != []
    decreases |dbchains|
  {
    if dbchains == [] then Loaded(map[], [])
    else
      match BuildRegistry(dbchains[..|dbchains| - 1], newChain)
      case Duplicate(cid) => Duplicate(cid)
      case Loaded(m, errs) => LoadStep(m, errs, dbchains[|dbchains| - 1], newChain(dbchains[|dbchains| - 1]))
  }

  predicate BuiltAt(dbchains: seq<DbChain>, newChain: DbChain -> BuildOutcome, i: int)
  {
    0 <= i < |dbchains| && newChain(dbchains[i]).Built?
  }

  /** A duplicate aborts the loop: nothing after it changes the outcome. */
  lemma {:induction false} DuplicateAborts(dbchains: seq<DbChain>, newChain: DbChain -> BuildOutcome, i: nat)
    requires i <= |dbchains| && BuildRegistry(dbchains[..i], newChain).Duplicate?
    ensures BuildRegistry(dbchains, newChain) == BuildRegistry(dbchains[..i], newChain)
    decreases |dbchains| - i
  {
    if i < |dbchains| {
      assert dbchains[..i + 1][..i] == dbchains[..i];
      DuplicateAborts(dbchains, newChain, i + 1);
    } else {
      assert dbchains[..i] == dbchains;
    }
  }

  /**
   * A loaded registry holds exactly the successfully built chains, each under
   * its own key and as built from its record; a chain without a primary node
   * is absent, and the errors are exactly the other construction failures.
   */
  lemma {:induction false} RegistryContents(dbchains: seq<DbChain>, newChain: DbChain -> BuildOutcome)
    requires BuildRegistry(dbchains, newChain).Loaded?
    ensures var r := BuildRegistry(dbchains, newChain);
      && WellKeyed(r.chains)
      && (forall i :: BuiltAt(dbchains, newChain, i) ==>
            Key(dbchains[i].id) in r.chains && r.chains[Key(dbchains[i].id)] == ChainOf(dbchains[i], newChain(dbchains[i]).instance))
      && (forall cid :: cid in r.chains ==> exists i :: BuiltAt(dbchains, newChain, i) && Key(dbchains[i].id) == cid)
      && (forall e :: e in r.errs <==> exists i :: 0 <= i < |dbchains| && newChain(dbchains[i]) == BuildFailed(e))
    decreases |dbchains|
  {
    if dbchains != [] {
      var n := |dbchains| - 1;
      var init, db := dbchains[..n], dbchains[n];
      assert forall i :: 0 <= i < n ==> init[i] == dbchains[i];
      RegistryContents(init, newChain);
      var prev := BuildRegistry(init, newChain);
      var r := BuildRegistry(dbchains, newChain);
      forall e | e in r.errs
        ensures exists i :: 0 <= i < |dbchains| && newChain(dbchains[i]) == BuildFailed(e)
      {
        if e !in prev.errs {
          assert newChain(dbchains[n]) == BuildFailed(e);
        }
      }
      forall cid | cid in r.chains
        ensures exists i :: BuiltAt(dbchains, newChain, i) && Key(dbchains[i].id) == cid
      {
        if cid !in prev.chains {
          assert BuiltAt(dbchains, newChain, n);
        }
      }
    }
  }

  /** Construction aborts exactly when two successfully built records carry the same chain ID. */
  lemma {:induction false} DuplicateIff(dbchains: seq<DbChain>, newChain: DbChain -> BuildOutcome)
    ensures BuildRegistry(dbchains, newChain).Duplicate? <==>
            exists i, j :: BuiltAt(dbchains, newChain, i) && BuiltAt(dbchains, newChain, j) && i < j && dbchains[i].id == dbchains[j].id
    decreases |dbchains|
  {
    if dbchains != [] {
      var n := |dbchains| - 1;
      var init, db := dbchains[..n], dbchains[n];
      assert forall i :: 0 <= i < n ==> init[i] == dbchains[i];
      DuplicateIff(init, newChain);
      var prev := BuildRegistry(init, newChain);
      if prev.Loaded? {
        RegistryContents(init, newChain);
        if BuildRegistry(dbchains, newChain).Duplicate? {
          var i :| BuiltAt(init, newChain, i) && Key(init[i].id) == Key(db.id);
          Decimal.IntToStringInjective(init[i].id, db.id);
          assert BuiltAt(dbchains, newChain, i) && BuiltAt(dbchains, newChain, n);
        } else {
          forall i, j | BuiltAt(dbchains, newChain, i) && BuiltAt(dbchains, newChain, j) && i < j
            ensures dbchains[i].id != dbchains[j].id
          {
            if j == n {
              assert BuiltAt(init, newChain, i);
            } else {
              assert BuiltAt(init, newChain, i) && BuiltAt(init, newChain, j);
            }
          }
        }
      } else {
        var i, j :| BuiltAt(init, newChain, i) && BuiltAt(init, newChain, j) && i < j && init[i].id == init[j].id;
        assert BuiltAt(dbchains, newChain, i) && BuiltAt(dbchains, newChain, j);
      }
    }
  }

  // ---------------------------------------------------------------------------
  // Enabling a chain at runtime

  datatype EnableStepResult = Insert(chain: Chain) | Reject(errs: Errors) | Ignore

  /**
   * The absent-and-enabled branch of `Configure` as written: an
   * `ErrNoPrimaryNode` result is only logged, and control falls through to
   * `chain.Start()` on the value `newChain` returned with it, which is
   * registered when it starts cleanly.
   */
  function EnableStepAsWritten(db: DbChain, build: BuildOutcome, started: Chain -> Errors): (r: EnableStepResult)
    ensures !r.Ignore?
    ensures r.Insert? <==> !build.BuildFailed? && started(ChainOf(db, build.instance)) == []
    ensures r.Insert? ==> r.chain == ChainOf(db, build.instance) && r.chain.id == db.id
    ensures r.Reject? ==> r.errs != []
  {
    match build
    case BuildFailed(e) => Reject([e])
    case _ =>
      var c := ChainOf(db, build.instance);
      if started(c) == [] then Insert(c) else Reject(started(c))
  }

  /** The same branch as its warning ("this chain will be ignored") and `NewChainSet` intend. */
  function EnableStep(db: DbChain, build: BuildOutcome, started: Chain -> Errors): (r: EnableStepResult)
    ensures r.Insert? <==> build.Built? && started(ChainOf(db, build.instance)) == []
    ensures r.Insert? ==> r.chain == ChainOf(db, build.instance) && r.chain.id == db.id
    ensures r.Ignore? <==> build.NoPrimaryNode?
    ensures r.Reject? ==> r.errs != []
  {
    match build
    case NoPrimaryNode(_) => Ignore
    case BuildFailed(e) => Reject([e])
    case Built(inst) => if started(ChainOf(db, inst)) == [] then Insert(ChainOf(db, inst)) else Reject(started(ChainOf(db, inst)))
  }

  /**
   * The two agree except on a chain without a primary node: as written, such
   * a chain is registered whenever its Start succeeds, and an error from that
   * Start is returned, where the intended step ignores the chain entirely.
   */
  lemma EnableStepDiscrepancy(db: DbChain, build: BuildOutcome, started: Chain -> Errors)
    ensures build.NoPrimaryNode? && started(ChainOf(db, build.instance)) == [] ==>
              EnableStepAsWritten(db, build, started) == Insert(ChainOf(db, build.instance)) && EnableStep(db, build, started) == Ignore
    ensures build.NoPrimaryNode? && started(ChainOf(db, build.instance)) != [] ==>
              EnableStepAsWritten(db, build, started) == Reject(started(ChainOf(db, build.instance))) && EnableStep(db, build, started) == Ignore
    ensures !build.NoPrimaryNode? ==> EnableStepAsWritten(db, build, started) == EnableStep(db, build, started)
  {
  }

  /**
   * The intended step is the one `NewChainSet`'s loop takes on a record whose
   * key is not yet registered, once the chain starts cleanly: a chain without
   * a primary node is skipped and a built chain is inserted as built.
   */
  lemma EnableStepMatchesLoadStep(m: map<string, Chain>, errs: Errors, db: DbChain, build: BuildOutcome, started: Chain -> Errors)
    requires Key(db.id) !in m && !build.BuildFailed? && started(ChainOf(db, build.instance)) == []
    ensures EnableStep(db, build, started).Ignore? ==> LoadStep(m, errs, db, build) == Loaded(m, errs)
    ensures EnableStep(db, build, started).Insert? ==>
              LoadStep(m, errs, db, build) == Loaded(m[Key(db.id) := EnableStep(db, build, started).chain], errs)
  {
  }

  // ---------------------------------------------------------------------------
  // Aggregating over chains

  /** The errors `multierr.Combine` accumulates over `cs`, in order. */
  function Combined(cs: seq<Chain>, outcome: Chain -> Errors): (r: Errors)
    ensures forall i :: 0 <= i < |cs| ==> |outcome(cs[i])| <= |r|
    decreases |cs|
  {
    if cs == [] then [] else Combined(cs[..|cs| - 1], outcome) + outcome(cs[|cs| - 1])
  }

  /** The aggregate holds exactly the errors of the individual chains; it is nil iff every chain returned nil. */
  lemma {:induction false} CombinedMembers(cs: seq<Chain>, outcome: Chain -> Errors)
    ensures forall e :: e in Combined(cs, outcome) <==> exists i :: 0 <= i < |cs| && e in outcome(cs[i])
    ensures Combined(cs, outcome) == [] <==> forall i :: 0 <= i < |cs| ==> outcome(cs[i]) == []
    decreases |cs|
  {
    if cs != [] {
      var n := |cs| - 1;
      assert forall i :: 0 <= i < n ==> cs[..n][i] == cs[i];
      CombinedMembers(cs[..n], outcome);
      forall e | e in Combined(cs, outcome)
        ensures exists i :: 0 <= i < |cs| && e in outcome(cs[i])
      {
        if e !in Combined(cs[..n], outcome) {
          assert e in outcome(cs[n]);
        }
      }
    }
  }

  /** A listing that covers exactly the registry's chains sees the same outcomes as the registry. */
  lemma CoveringSameOutcomes(cs: seq<Chain>, m: map<string, Chain>, outcome: Chain -> Errors)
    requires forall c :: c in cs <==> c in m.Values
    ensures (forall i :: 0 <= i < |cs| ==> outcome(cs[i]) == []) <==> (forall cid :: cid in m ==> outcome(m[cid]) == [])
  {
    if forall i :: 0 <= i < |cs| ==> outcome(cs[i]) == [] {
      forall cid | cid in m
        ensures outcome(m[cid]) == []
      {
        assert m[cid] in m.Values;
        var i :| 0 <= i < |cs| && cs[i] == m[cid];
      }
    } else {
      var i :| 0 <= i < |cs| && outcome(cs[i]) != [];
      assert cs[i] in m.Values;
      var cid :| cid in m && m[cid] == cs[i];
    }
  }

  /** The same error is reported by some listed chain iff it is reported by some registered chain. */
  lemma CoveringSameErrors(cs: seq<Chain>, m: map<string, Chain>, outcome: Chain -> Errors, e: Error)
    requires forall c :: c in cs <==> c in m.Values
    ensures (exists i :: 0 <= i < |cs| && e in outcome(cs[i])) <==> (exists cid :: cid in m && e in outcome(m[cid]))
  {
    if exists cid :: cid in m && e in outcome(m[cid]) {
      var cid :| cid in m && e in outcome(m[cid]);
      assert m[cid] in m.Values;
      var i :| 0 <= i < |cs| && cs[i] == m[cid];
    }
    if exists i :: 0 <= i < |cs| && e in outcome(cs[i]) {
      var i :| 0 <= i < |cs| && e in outcome(cs[i]);
      assert cs[i] in m.Values;
      var cid :| cid in m && m[cid] == cs[i];
    }
  }

  class ChainSet {
    var defaultID: Option<int>
    var chains: map<string, Chain>

    ghost predicate Valid()
      reads this
    {
      WellKeyed(chains)
    }

    constructor (defaultID: Option<int>)
      ensures Valid() && this.defaultID == defaultID && chains == map[]
    {
      this.defaultID := defaultID;
      chains := map[];
    }

    /** `Get`: no ID means the default chain; otherwise the chain stored under the ID's key. */
    function Get(id: Option<int>): (r: Result<Chain, Error>)
      reads this
      requires Valid()
      ensures id.None? ==> r == Default()
      ensures id.Some? ==> (r.Success? <==> Key(id.value) in chains)
      ensures id.Some? && r.Success? ==> r.value == chains[Key(id.value)] && r.value.id == id.value
      ensures id.Some? && r.Failure? ==> r.error == ChainNotFound(id.value)
      decreases if id.None? then 2 else 0
    {
      if id.None? then Default()
      else
        var cid := Key(id.value);
        if cid in chains then
          Decimal.IntToStringInjective(chains[cid].id, id.value);
          Success(chains[cid])
        else Failure(ChainNotFound(id.value))
    }

    /** `Default`: emptiness is checked before a missing default ID. */
    function Default(): (r: Result<Chain, Error>)
      reads this
      requires Valid()
      ensures |chains| == 0 ==> r == Failure(NoChains)
      ensures |chains| > 0 && defaultID.None? ==> r == Failure(NoDefaultChainID)
      ensures |chains| > 0 && defaultID.Some? ==> r == Get(defaultID)
      ensures r.Success? ==> defaultID.Some? && r.value.id == defaultID.value && r.value in chains.Values
      decreases 1
    {
      if |chains| == 0 then Failure(NoChains)
      else if defaultID.None? then Failure(NoDefaultChainID)
      else Get(defaultID)
    }

    /** `ChainCount`: the registry is empty exactly when `Default` reports that no chains are loaded. */
    function ChainCount(): (n: nat)
      reads this
      requires Valid()
      ensures n == 0 <==> Default() == Failure(NoChains)
    {
      |chains|
    }

    /** `Chains`: every registered chain once, in no particular order. */
    method Chains() returns (cs: seq<Chain>)
      requires Valid()
      ensures |cs| == ChainCount()
      ensures forall c :: c in cs <==> c in chains.Values
      ensures forall i, j :: 0 <= i < j < |cs| ==> cs[i] != cs[j]
    {
      cs := [];
      var keys := chains.Keys;
      while keys != {}
        invariant keys <= chains.Keys
        invariant |cs| + |keys| == |chains|
        invariant forall i :: 0 <= i < |cs| ==> Key(cs[i].id) in chains && chains[Key(cs[i].id)] == cs[i] && Key(cs[i].id) !in keys
        invariant forall cid :: cid in chains && cid !in keys ==> chains[cid] in cs
        invariant forall i, j :: 0 <= i < j < |cs| ==> cs[i] != cs[j]
        decreases |keys|
      {
        var cid :| cid in keys;
        cs := cs + [chains[cid]];
        keys := keys - {cid};
      }
    }

    /** Calls one operation on every chain and combines all of their errors. */
    method CombineOver(outcome: Chain -> Errors) returns (invoked: seq<Chain>, err: Errors)
      requires Valid()
      ensures |invoked| == |chains| && (forall c :: c in invoked <==> c in chains.Values)
      ensures err == [] <==> forall cid :: cid in chains ==> outcome(chains[cid]) == []
      ensures forall e :: e in err <==> exists cid :: cid in chains && e in outcome(chains[cid])
    {
      invoked := Chains();
      err := [];
      for i := 0 to |invoked|
        invariant err == Combined(invoked[..i], outcome)
      {
        assert invoked[..i + 1][..i] == invoked[..i];
        err := err + outcome(invoked[i]);
      }
      assert invoked[..|invoked|] == invoked;
      CombinedMembers(invoked, outcome);
      CoveringSameOutcomes(invoked, chains, outcome);
      forall e
        ensures e in err <==> exists cid :: cid in chains && e in outcome(chains[cid])
      {
        CoveringSameErrors(invoked, chains, outcome, e);
      }
    }

    /** `Start`, with `started` giving each chain's own `Start` result. */
    method Start(started: Chain -> Errors) returns (invoked: seq<Chain>, err: Errors)
      requires Valid()
      ensures |invoked| == |chains| && (forall c :: c in invoked <==> c in chains.Values)
      ensures err == [] <==> forall cid :: cid in chains ==> started(chains[cid]) == []
      ensures forall e :: e in err <==> exists cid :: cid in chains && e in started(chains[cid])
    {
      invoked, err := CombineOver(started);
    }

    /** `Close`, with `closed` giving each chain's own `Close` result. */
    method Close(closed: Chain -> Errors) returns (invoked: seq<Chain>, err: Errors)
      requires Valid()
      ensures |invoked| == |chains| && (forall c :: c in invoked <==> c in chains.Values)
      ensures err == [] <==> forall cid :: cid in chains ==> closed(chains[cid]) == []
      ensures forall e :: e in err <==> exists cid :: cid in chains && e in closed(chains[cid])
    {
      invoked, err := CombineOver(closed);
    }

    /** `Healthy`, with `healthy` giving each chain's own `Healthy` result. */
    method Healthy(healthy: Chain -> Errors) returns (invoked: seq<Chain>, err: Errors)
      requires Valid()
      ensures |invoked| == |chains| && (forall c :: c in invoked <==> c in chains.Values)
      ensures err == [] <==> forall cid :: cid in chains ==> healthy(chains[cid]) == []
      ensures forall e :: e in err <==> exists cid :: cid in chains && e in healthy(chains[cid])
    {
      invoked, err := CombineOver(healthy);
    }

    /** `Ready`, with `ready` giving each chain's own `Ready` result. */
    method Ready(ready: Chain -> Errors) returns (invoked: seq<Chain>, err: Errors)
      requires Valid()
      ensures |invoked| == |chains| && (forall c :: c in invoked <==> c in chains.Values)
      ensures err == [] <==> forall cid :: cid in chains ==> ready(chains[cid]) == []
      ensures forall e :: e in err <==> exists cid :: cid in chains && e in ready(chains[cid])
    {
      invoked, err := CombineOver(ready);
    }

    /**
     * `Configure`. `updated` and `nodes` are the ORM's answers to `UpdateChain`
     * and `NodesForChain`; `build` is what `newChain` returns for the updated
     * record, and `started`/`closed` give a chain's own `Start`/`Close`
     * result. The returned record is `None` where the code returns the empty
     * `types.Chain{}`.
     */
    method Configure(id: int, enabled: bool, updated: Result<DbChain, Error>, nodes: Result<seq<NodeCfg>, Error>,
                     build: BuildOutcome, started: Chain -> Errors, closed: Chain -> Errors)
      returns (out: Option<DbChain>, err: Errors)
      requires Valid()
      requires updated.Success? ==> updated.value.id == id
      modifies this`chains
      ensures Valid()
      ensures updated.Failure? ==> out.None? && err == [updated.error] && chains == old(chains)
      ensures updated.Success? && nodes.Failure? ==> out.None? && err == [nodes.error] && chains == old(chains)
      ensures updated.Success? && nodes.Success? ==>
        var db, cid := updated.value.(nodes := nodes.value), Key(id);
        && (cid in old(chains) && !enabled ==>
              chains == old(chains) - {cid} && out.None? && err == closed(old(chains)[cid]))
        && (cid !in old(chains) && enabled ==>
              var step := EnableStepAsWritten(db, build, started);
              && (step.Insert? ==> chains == old(chains)[cid := step.chain] && out == Some(db) && err == [])
              && (step.Reject? ==> chains == old(chains) && out.None? && err == step.errs))
        && ((cid in old(chains)) == enabled ==> chains == old(chains) && out == Some(db) && err == [])
      ensures updated.Success? && nodes.Success? && !enabled ==> Get(Some(id)) == Failure(ChainNotFound(id))
      ensures updated.Success? && nodes.Success? && enabled && !build.BuildFailed? && err == [] ==> Get(Some(id)).Success?
    {
      if updated.Failure? {
        return None, [updated.error];
      }
      if nodes.Failure? {
        return None, [nodes.error];
      }
      var dbchain := updated.value.(nodes := nodes.value);
      var found := Get(Some(id));
      var present := found.Success?;
      var cid := Key(id);
      if present && !enabled {
        chains := chains - {cid};
        return None, closed(found.value);
      } else if !present && enabled {
        var step := EnableStepAsWritten(dbchain, build, started);
        if step.Insert? {
          chains := chains[cid := step.chain];
          return Some(dbchain), [];
        }
        return None, step.errs;
      }
      return Some(dbchain), [];
    }
  }

  /** `NewChainSet`: `newChain` is applied to each record in turn. */
  method NewChainSet(opts: Opts, dbchains: seq<DbChain>, newChain: DbChain -> BuildOutcome)
    returns (cs: ChainSet?, err: Errors)
    ensures CheckOpts(opts).Some? ==> cs == null && err == [CheckOpts(opts).value]
    ensures CheckOpts(opts).None? ==>
      match BuildRegistry(dbchains, newChain)
      case Duplicate(cid) => cs == null && err == [DuplicateChain(cid)]
      case Loaded(m, errs) =>
        cs != null && fresh(cs) && cs.Valid() && cs.chains == m && cs.defaultID == opts.defaultChainID && err == errs
  {
    var check := CheckOpts(opts);
    if check.Some? {
      return null, [check.value];
    }
    err := [];
    var built := new ChainSet(opts.defaultChainID);
    var i := 0;
    while i < |dbchains|
      invariant 0 <= i <= |dbchains|
      invariant BuildRegistry(dbchains[..i], newChain) == Loaded(built.chains, err)
      invariant built.defaultID == opts.defaultChainID
    {
      var db := dbchains[i];
      var cid := Key(db.id);
      assert dbchains[..i + 1][..i] == dbchains[..i] && dbchains[i] == db;
      match newChain(db) {
        case NoPrimaryNode(_) =>
        case BuildFailed(e) =>
          err := err + [e];
        case Built(inst) =>
          if cid in built.chains {
            DuplicateAborts(dbchains, newChain, i + 1);
            return null, [DuplicateChain(cid)];
          }
          built.chains := built.chains[cid := ChainOf(db, inst)];
      }
      i := i + 1;
    }
    assert dbchains[..i] == dbchains;
    RegistryContents(dbchains, newChain);
    cs := built;
  }

  /**
   * `LoadChainSet`: `enabledChains` is the ORM's answer to
   * `EnabledChainsWithNodes`. With EVM disabled the set is empty and has no
   * default chain ID.
   */
  method LoadChainSet(opts: Opts, enabledChains: Result<seq<DbChain>, string>, newChain: DbChain -> BuildOutcome)
    returns (cs: ChainSet?, err: Errors)
    ensures CheckOpts(opts).Some? ==> cs == null && err == [CheckOpts(opts).value]
    ensures CheckOpts(opts).None? && opts.evmDisabled ==>
              cs != null && fresh(cs) && cs.Valid() && cs.chains == map[] && cs.defaultID.None? && err == []
    ensures CheckOpts(opts).None? && !opts.evmDisabled && enabledChains.Failure? ==>
              cs == null && err == [LoadingChains(enabledChains.error)]
    ensures CheckOpts(opts).None? && !opts.evmDisabled && enabledChains.Success? ==>
      match BuildRegistry(enabledChains.value, newChain)
      case Duplicate(cid) => cs == null && err == [DuplicateChain(cid)]
      case Loaded(m, errs) =>
        cs != null && fresh(cs) && cs.Valid() && cs.chains == m && cs.defaultID == opts.defaultChainID && err == errs
  {
    var check := CheckOpts(opts);
    if check.Some? {
      return null, [check.value];
    }
    if opts.evmDisabled {
      cs := new ChainSet(None);
      return cs, [];
    }
    if enabledChains.Failure? {
      return null, [LoadingChains(enabledChains.error)];
    }
    cs, err := NewChainSet(opts, enabledChains.value, newChain);
  }
}
