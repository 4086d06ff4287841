/** Gas reports: per contract the deployments, and per contract and function the calls. */
module GasReport {
  import opened Prelude

  datatype Status = Success | Revert | Halt

  datatype Deployment = Deployment(gas: nat, size: nat, status: Status)

  datatype Call = Call(gas: nat, status: Status, proxyChain: seq<string>)

  datatype ContractReport = ContractReport(deployments: seq<Deployment>, functions: map<string, seq<Call>>)

  type Contracts = map<string, ContractReport>

  // ----- what is recorded -----

  function Calls(functions: map<string, seq<Call>>, name: string): seq<Call> {
    if name in functions then functions[name] else []
  }

  function CallsOf(report: Contracts, contract: string, name: string): seq<Call> {
    if contract in report then Calls(report[contract].functions, name) else []
  }

  function DeploymentsOf(report: Contracts, contract: string): seq<Deployment> {
    if contract in report then report[contract].deployments else []
  }

  predicate HasFunction(report: Contracts, contract: string, name: string) {
    contract in report && name in report[contract].functions
  }

  // ----- merging -----

  function MergeFunctions(a: map<string, seq<Call>>, b: map<string, seq<Call>>): map<string, seq<Call>> {
    map name | name in a.Keys + b.Keys :: Calls(a, name) + Calls(b, name)
  }

  function MergeContracts(a: ContractReport, b: ContractReport): ContractReport {
    ContractReport(a.deployments + b.deployments, MergeFunctions(a.functions, b.functions))
  }

  function MergedAt(a: Contracts, b: Contracts, contract: string): ContractReport
    requires contract in a || contract in b
  {
    if contract !in a then b[contract]
    else if contract !in b then a[contract]
    else MergeContracts(a[contract], b[contract])
  }

  function Merge(a: Contracts, b: Contracts): Contracts {
    map contract | contract in a.Keys + b.Keys :: MergedAt(a, b, contract)
  }

  /** `r` is `a` merged with the contracts of `b` outside `todo`. */
  predicate PartlyMerged(r: Contracts, a: Contracts, b: Contracts, todo: set<string>) {
    && todo <= b.Keys
    && r.Keys == a.Keys + (b.Keys - todo)
    && forall contract | contract in r ::
         r[contract] == if contract in todo then a[contract] else MergedAt(a, b, contract)
  }

  lemma StartOfMerge(a: Contracts, b: Contracts)
    ensures PartlyMerged(a, a, b, b.Keys)
  {
  }

  lemma PartlyMergedStep(r: Contracts, a: Contracts, b: Contracts, todo: set<string>, contract: string)
    requires PartlyMerged(r, a, b, todo) && contract in todo
    ensures contract in r ==>
              PartlyMerged(r[contract := MergeContracts(r[contract], b[contract])], a, b, todo - {contract})
    ensures contract !in r ==> PartlyMerged(r[contract := b[contract]], a, b, todo - {contract})
  {
    hide MergeContracts;
  }

  lemma FullyMerged(r: Contracts, a: Contracts, b: Contracts)
    requires PartlyMerged(r, a, b, {})
    ensures r == Merge(a, b)
  {
    hide MergedAt;
  }

  /** `r` is `a` merged with the functions of `b` outside `todo`. */
  predicate PartlyMergedFunctions(r: map<string, seq<Call>>, a: map<string, seq<Call>>, b: map<string, seq<Call>>,
                                  todo: set<string>) {
    && todo <= b.Keys
    && r.Keys == a.Keys + (b.Keys - todo)
    && forall name | name in r :: r[name] == Calls(a, name) + if name in todo then [] else Calls(b, name)
  }

  lemma StartOfFunctions(a: map<string, seq<Call>>, b: map<string, seq<Call>>)
    ensures PartlyMergedFunctions(a, a, b, b.Keys)
  {
  }

  lemma PartlyMergedFunctionsStep(r: map<string, seq<Call>>, a: map<string, seq<Call>>, b: map<string, seq<Call>>,
                                  todo: set<string>, name: string)
    requires PartlyMergedFunctions(r, a, b, todo) && name in todo
    ensures name in r ==> PartlyMergedFunctions(r[name := r[name] + b[name]], a, b, todo - {name})
    ensures name !in r ==> PartlyMergedFunctions(r[name := b[name]], a, b, todo - {name})
  {
  }

  lemma FullyMergedFunctions(r: map<string, seq<Call>>, a: map<string, seq<Call>>, b: map<string, seq<Call>>)
    requires PartlyMergedFunctions(r, a, b, {})
    ensures r == MergeFunctions(a, b)
  {
  }

  /** The loop takes the other report's functions in whatever order the map gives. */
  method MergeContractReport(mine: ContractReport, other: ContractReport) returns (r: ContractReport)
    ensures r == MergeContracts(mine, other)
  {
    hide PartlyMergedFunctions, MergeFunctions, Calls;
    var deployments := mine.deployments + other.deployments;
    var functions := mine.functions;
    var todo := other.functions.Keys;
    StartOfFunctions(functions, other.functions);
    while todo != {}
      invariant todo <= other.functions.Keys
      invariant PartlyMergedFunctions(functions, mine.functions, other.functions, todo)
      decreases |todo|
    {
      var name :| name in todo;
      PartlyMergedFunctionsStep(functions, mine.functions, other.functions, todo, name);
      if name in functions {
        functions := functions[name := functions[name] + other.functions[name]];
      } else {
        functions := functions[name := other.functions[name]];
      }
      todo := todo - {name};
    }
    FullyMergedFunctions(functions, mine.functions, other.functions);
    r := ContractReport(deployments, functions);
  }

  /** What a transaction contributes. */
  datatype Outcome =
    | Recognized(contract: string, report: ContractReport)
    | Unrecognized
    | MissingCode(address: nat)

  class GasReport {
    var contracts: Contracts

    constructor ()
      ensures contracts == map[]
    {
      contracts := map[];
    }

    method MergeReport(other: Contracts)
      modifies this
      ensures contracts == Merge(old(contracts), other)
    {
      hide MergeContracts, Merge, PartlyMerged;
      var todo := other.Keys;
      StartOfMerge(contracts, other);
      while todo != {}
        invariant todo <= other.Keys
        invariant PartlyMerged(contracts, old(contracts), other, todo)
        decreases |todo|
      {
        var contract :| contract in todo;
        PartlyMergedStep(contracts, old(contracts), other, todo, contract);
        if contract in contracts {
          var merged := MergeContractReport(contracts[contract], other[contract]);
          contracts := contracts[contract := merged];
        } else {
          contracts := contracts[contract := other[contract]];
        }
        todo := todo - {contract};
      }
      FullyMerged(contracts, old(contracts), other);
    }

    method AddOutcome(outcome: Outcome) returns (ok: bool)
      modifies this
      ensures contracts == Add(old(contracts), outcome)
      ensures ok <==> !outcome.MissingCode?
    {
      match outcome {
        case Recognized(contract, report) =>
          if contract in contracts {
            var merged := MergeContractReport(contracts[contract], report);
            contracts := contracts[contract := merged];
          } else {
            contracts := contracts[contract := report];
          }
          return true;
        case Unrecognized =>
          return true;
        case MissingCode(_) =>
          return false;
      }
    }
  }

  function Add(report: Contracts, outcome: Outcome): Contracts {
    if !outcome.Recognized? then report
    else report[outcome.contract :=
                  if outcome.contract in report then MergeContracts(report[outcome.contract], outcome.report)
                  else outcome.report]
  }

  function AddAll(report: Contracts, outcomes: seq<Outcome>): Contracts {
    if outcomes == [] then report
    else Add(AddAll(report, outcomes[..|outcomes| - 1]), outcomes[|outcomes| - 1])
  }

  // ----- the laws of merging -----

  /** Per contract and function the lists are concatenated, and nothing else appears. */
  lemma MergeConcatenates(a: Contracts, b: Contracts, contract: string, name: string)
    ensures CallsOf(Merge(a, b), contract, name) == CallsOf(a, contract, name) + CallsOf(b, contract, name)
    ensures DeploymentsOf(Merge(a, b), contract) == DeploymentsOf(a, contract) + DeploymentsOf(b, contract)
    ensures contract in Merge(a, b) <==> contract in a || contract in b
    ensures HasFunction(Merge(a, b), contract, name)
       <==> HasFunction(a, contract, name) || HasFunction(b, contract, name)
  {
  }

  /** How often an entry is recorded; these multiplicities make up a report's multiset of
      entries. */
  function Recorded(report: Contracts, contract: string, name: string, call: Call): nat {
    multiset(CallsOf(report, contract, name))[call]
  }

  lemma MergeConservesEntries(a: Contracts, b: Contracts, contract: string, name: string, call: Call,
                              deployment: Deployment)
    ensures Recorded(Merge(a, b), contract, name, call)
         == Recorded(a, contract, name, call) + Recorded(b, contract, name, call)
    ensures multiset(DeploymentsOf(Merge(a, b), contract))[deployment]
         == multiset(DeploymentsOf(a, contract))[deployment] + multiset(DeploymentsOf(b, contract))[deployment]
  {
    hide Merge;
    MergeConcatenates(a, b, contract, name);
  }

  /** A report is determined by what it records and by the names that occur in it. */
  lemma EqualByContents(a: Contracts, b: Contracts)
    requires a.Keys == b.Keys
    requires forall contract, name :: CallsOf(a, contract, name) == CallsOf(b, contract, name)
    requires forall contract, name :: HasFunction(a, contract, name) <==> HasFunction(b, contract, name)
    requires forall contract :: DeploymentsOf(a, contract) == DeploymentsOf(b, contract)
    ensures a == b
  {
    forall contract | contract in a
      ensures a[contract] == b[contract]
    {
      assert DeploymentsOf(a, contract) == DeploymentsOf(b, contract);
      var f, g := a[contract].functions, b[contract].functions;
      forall name
        ensures name in f <==> name in g
        ensures Calls(f, name) == Calls(g, name)
      {
        assert HasFunction(a, contract, name) <==> HasFunction(b, contract, name);
        assert CallsOf(a, contract, name) == CallsOf(b, contract, name);
      }
      assert f == g by {
        assert forall name | name in f :: f[name] == Calls(f, name) == Calls(g, name) == g[name];
      }
    }
  }

  /** Merging is associative, and the empty report is its unit on both sides. */
  lemma MergeIsMonoid(a: Contracts, b: Contracts, c: Contracts)
    ensures Merge(Merge(a, b), c) == Merge(a, Merge(b, c))
    ensures Merge(map[], a) == a == Merge(a, map[])
  {
    MergeKeys(a, b, c);
    hide Merge, CallsOf, DeploymentsOf, HasFunction;
    var left, right := Merge(Merge(a, b), c), Merge(a, Merge(b, c));
    forall contract, name
      ensures CallsOf(left, contract, name) == CallsOf(right, contract, name)
      ensures HasFunction(left, contract, name) <==> HasFunction(right, contract, name)
    {
      MergeReassociates(a, b, c, contract, name);
    }
    forall contract
      ensures DeploymentsOf(left, contract) == DeploymentsOf(right, contract)
    {
      MergeReassociates(a, b, c, contract, "");
    }
    EqualByContents(left, right);
  }

  lemma MergeReassociates(a: Contracts, b: Contracts, c: Contracts, contract: string, name: string)
    ensures var left, right := Merge(Merge(a, b), c), Merge(a, Merge(b, c));
            && CallsOf(left, contract, name) == CallsOf(right, contract, name)
            && (HasFunction(left, contract, name) <==> HasFunction(right, contract, name))
            && DeploymentsOf(left, contract) == DeploymentsOf(right, contract)
  {
    hide *;
    MergeConcatenates(Merge(a, b), c, contract, name);
    MergeConcatenates(a, b, contract, name);
    MergeConcatenates(a, Merge(b, c), contract, name);
    MergeConcatenates(b, c, contract, name);
  }

  lemma MergeKeys(a: Contracts, b: Contracts, c: Contracts)
    ensures Merge(Merge(a, b), c).Keys == Merge(a, Merge(b, c)).Keys
    ensures Merge(map[], a) == a == Merge(a, map[])
  {
    hide MergeContracts;
  }

  function Singleton(outcome: Outcome): Contracts {
    if outcome.Recognized? then map[outcome.contract := outcome.report] else map[]
  }

  function MergeAll(reports: seq<Contracts>): Contracts {
    if reports == [] then map[] else Merge(MergeAll(reports[..|reports| - 1]), reports[|reports| - 1])
  }

  function Singletons(outcomes: seq<Outcome>): (r: seq<Contracts>)
    ensures |r| == |outcomes|
  {
    if outcomes == [] then [] else Singletons(outcomes[..|outcomes| - 1]) + [Singleton(outcomes[|outcomes| - 1])]
  }

  lemma AddIsMerge(report: Contracts, outcome: Outcome)
    ensures Add(report, outcome) == Merge(report, Singleton(outcome))
  {
    hide MergeContracts;
  }

  /** Adding transactions one by one is merging their one-entry reports in order, whether
      the additions start from an empty report or extend one: reports built separately
      and merged equal one built in a single pass. */
  lemma {:induction false} AddsAreMerges(report: Contracts, outcomes: seq<Outcome>)
    ensures AddAll(report, outcomes) == Merge(report, MergeAll(Singletons(outcomes)))
    ensures AddAll(report, outcomes) == Merge(report, AddAll(map[], outcomes))
  {
    hide Merge, Add, Singleton;
    var all := MergeAll(Singletons(outcomes));
    MergeIsMonoid(all, map[], map[]);
    MergeIsMonoid(report, map[], map[]);
    if outcomes != [] {
      var before, last := outcomes[..|outcomes| - 1], outcomes[|outcomes| - 1];
      var one := Singleton(last);
      AddsAreMerges(report, before);
      AddsAreMerges(map[], before);
      AddIsMerge(AddAll(report, before), last);
      AddIsMerge(AddAll(map[], before), last);
      assert Singletons(outcomes)[..|outcomes| - 1] == Singletons(before);
      MergeIsMonoid(report, MergeAll(Singletons(before)), one);
      MergeIsMonoid(MergeAll(Singletons(before)), one, map[]);
    }
  }

  // ----- proxy chains -----

  datatype Decoded = Decoded(identifier: string, signature: Option<string>)

  datatype ResolveError = EmptyProxyChain | NoCode(address: nat) | UnrecognizedContract | UnrecognizedFunction

  datatype Resolution =
    | Resolved(identifier: string, signature: string, proxyChain: seq<string>)
    | Rejected(error: ResolveError)

  const UNRECOGNIZED_CONTRACT := "<UnrecognizedContract>"
  const UNRECOGNIZED_FUNCTION := "<unrecognized-selector>"

  /** The code at each address and what the decoder makes of it, with the call's input
      for the implementation and without for the proxies. */
  datatype Codebase<!C> = Codebase(code: map<nat, C>, decode: (C, bool) -> Decoded)

  /** From the last of `calls` to the first, the identifiers; or the first address on that
      way that has no code. */
  function ProxyIdentifiers<C>(base: Codebase<C>, calls: seq<nat>): (seq<string>, Option<nat>) {
    if calls == [] then ([], None)
    else
      var last := calls[|calls| - 1];
      if last !in base.code then ([], Some(last))
      else
        var (rest, missing) := ProxyIdentifiers(base, calls[..|calls| - 1]);
        ([base.decode(base.code[last], false).identifier] + rest, missing)
  }

  function ResolveProxyChain<C>(base: Codebase<C>, chain: seq<nat>): Resolution {
    if chain == [] then Rejected(EmptyProxyChain)
    else if chain[0] !in base.code then Rejected(NoCode(chain[0]))
    else
      var implementation := base.decode(base.code[chain[0]], true);
      if implementation.identifier == UNRECOGNIZED_CONTRACT then Rejected(UnrecognizedContract)
      else if implementation.signature.None? || implementation.signature.value == UNRECOGNIZED_FUNCTION
              || implementation.signature.value == ""
      then Rejected(UnrecognizedFunction)
      else
        var (proxies, missing) := ProxyIdentifiers(base, chain[1..]);
        if missing.Some? then Rejected(NoCode(missing.value))
        else Resolved(implementation.identifier, implementation.signature.value, proxies + [implementation.identifier])
  }

  /** The identifier of call `i` of a chain that runs from the implementation outwards. */
  function IdentifierAt<C>(base: Codebase<C>, chain: seq<nat>, i: nat): string
    requires i < |chain| && chain[i] in base.code
  {
    base.decode(base.code[chain[i]], i == 0).identifier
  }

  predicate HasCode<C>(base: Codebase<C>, calls: seq<nat>) {
    forall k | 0 <= k < |calls| :: calls[k] in base.code
  }

  lemma {:induction false} ProxyIdentifiersReverse<C>(base: Codebase<C>, calls: seq<nat>)
    ensures ProxyIdentifiers(base, calls).1.None? <==> HasCode(base, calls)
    ensures HasCode(base, calls) ==>
              var r := ProxyIdentifiers(base, calls).0;
              |r| == |calls|
              && forall k | 0 <= k < |calls| :: r[k] == base.decode(base.code[calls[|calls| - 1 - k]], false).identifier
    ensures !HasCode(base, calls) ==>
              exists k :: 0 <= k < |calls| && ProxyIdentifiers(base, calls).1 == Some(calls[k])
                          && calls[k] !in base.code && HasCode(base, calls[k + 1..])
  {
    if calls != [] {
      var init, last := calls[..|calls| - 1], calls[|calls| - 1];
      ProxyIdentifiersReverse(base, init);
      if last !in base.code {
        assert calls[|calls| - 1 + 1..] == [];
      } else if !HasCode(base, init) {
        var k :| 0 <= k < |init| && ProxyIdentifiers(base, init).1 == Some(init[k])
                 && init[k] !in base.code && HasCode(base, init[k + 1..]);
        assert calls[k] == init[k];
        assert calls[k + 1..] == init[k + 1..] + [last];
      }
    }
  }

  /** A resolved chain lists exactly the input chain's identifiers in reverse, so from the
      outermost proxy to the implementation. */
  lemma ResolvedChainIsReversed<C>(base: Codebase<C>, chain: seq<nat>)
    requires ResolveProxyChain(base, chain).Resolved?
    ensures chain != [] && HasCode(base, chain)
    ensures var r := ResolveProxyChain(base, chain);
            && |r.proxyChain| == |chain|
            && (forall k | 0 <= k < |chain| :: r.proxyChain[|chain| - 1 - k] == IdentifierAt(base, chain, k))
            && r.identifier == r.proxyChain[|chain| - 1]
            && base.decode(base.code[chain[0]], true).signature == Some(r.signature)
  {
    ProxyIdentifiersReverse(base, chain[1..]);
    assert forall k | 0 < k < |chain| :: chain[k] == chain[1..][k - 1];
    hide ProxyIdentifiers;
  }

  /** Which error is reported: the implementation is judged first, then the proxies from
      the outermost inwards. */
  lemma ResolutionFailsIff<C>(base: Codebase<C>, chain: seq<nat>)
    ensures ResolveProxyChain(base, chain) == Rejected(EmptyProxyChain) <==> chain == []
    ensures ResolveProxyChain(base, chain).Resolved? <==>
              chain != [] && HasCode(base, chain)
              && var d := base.decode(base.code[chain[0]], true);
                 && d.identifier != UNRECOGNIZED_CONTRACT && d.signature.Some?
                 && d.signature.value != UNRECOGNIZED_FUNCTION && d.signature.value != ""
    ensures chain != [] && chain[0] in base.code ==>
              var d := base.decode(base.code[chain[0]], true);
              && (ResolveProxyChain(base, chain) == Rejected(UnrecognizedContract)
                  <==> d.identifier == UNRECOGNIZED_CONTRACT)
              && (ResolveProxyChain(base, chain) == Rejected(UnrecognizedFunction)
                  <==> d.identifier != UNRECOGNIZED_CONTRACT
                       && (d.signature.Some? ==> d.signature.value in [UNRECOGNIZED_FUNCTION, ""]))
    ensures chain != [] && chain[0] !in base.code ==> ResolveProxyChain(base, chain) == Rejected(NoCode(chain[0]))
    ensures ResolveProxyChain(base, chain).Rejected? && ResolveProxyChain(base, chain).error.NoCode?
            && chain[0] in base.code ==>
              exists k :: 0 <= k < |chain[1..]| && ResolveProxyChain(base, chain).error.address == chain[1..][k]
                          && chain[1..][k] !in base.code && HasCode(base, chain[1..][k + 1..])
  {
    if chain != [] {
      ProxyIdentifiersReverse(base, chain[1..]);
      assert chain == [chain[0]] + chain[1..];
    }
  }
}
