/**
  The records a cross-chain order is made of: interactions, legs, and the multi-leg plan
  that the compiler hands to the executor through plain dictionaries.
 */
module LegPlans {

  import opened Wrappers

  /** Dictionary keys: those the code reads or writes, and any other. */
  datatype Key =
    | Kind              // "type"
    | PlatformCompiled  // "_platform_compiled"
    | CrossChain        // "cross_chain"
    | BridgeProtocol | BridgeTokenIn | BridgeTokenOut | BridgeAmount | BridgeEstimatedOutput
    | BridgeFee | BridgeRecipient | TxHash
    | Target | CallValue | CallData | ChainId | LegIndex | IntentSelector | IntentParamsHex
    | Interactions | DependsOn | RollbackFor | LegMetadata
    | ForwardLegs | RollbackLegs | RollbackPlanHash
    | Other(name: string)

  /** The values that travel in metadata and in serialised plans. */
  datatype Value =
    | Null
    | Flag(flag: bool)
    | Num(num: int)
    | Text(text: string)
    | Items(items: seq<Value>)
    | Fields(fields: map<Key, Value>)

  type Metadata = map<Key, Value>

  predicate Truthy(v: Value) {
    match v
    case Null => false
    case Flag(b) => b
    case Num(n) => n != 0
    case Text(s) => s != ""
    case Items(s) => s != []
    case Fields(m) => m != map[]
  }

  /** `metadata.get(key)` in a condition. */
  predicate Says(m: Metadata, key: Key) {
    key in m && Truthy(m[key])
  }

  datatype Interaction = Interaction(target: string, value: string, callData: string, chain: int)

  /** What a relayer answers: did it go through, and in which transaction. */
  datatype Receipt = Receipt(success: bool, tx: string)

  /** The bridge call selectors no solver may use: Hyperlane's `transferRemote`. */
  const BRIDGE_SELECTORS: set<string> := {"81b4e8b4"}

  function Selector(callData: string): string {
    var raw := if "0x" <= callData then callData[2..] else callData;
    if |raw| >= 8 then raw[..8] else ""
  }

  predicate CallsBridge(ix: Interaction) {
    Selector(ix.callData) in BRIDGE_SELECTORS
  }

  datatype LegPlan = LegPlan(
    index: int,
    chain: int,
    selector: string,
    params: string,
    interactions: seq<Interaction>,
    dependsOn: seq<int>,
    rollbackFor: Option<int>,
    metadata: Metadata)

  datatype MultiLegPlan = MultiLegPlan(
    forward: seq<LegPlan>,
    rollback: seq<LegPlan>,
    rollbackHash: string)

  // ---------------------------------------------------------------- serialisation

  function InteractionToDict(ix: Interaction): Value {
    Fields(map[Target := Text(ix.target), CallValue := Text(ix.value),
               CallData := Text(ix.callData), ChainId := Num(ix.chain)])
  }

  function LegToDict(l: LegPlan): Value {
    Fields(map[LegIndex := Num(l.index), ChainId := Num(l.chain),
               IntentSelector := Text(l.selector), IntentParamsHex := Text(l.params),
               Interactions := Items(Mapped(l.interactions, InteractionToDict)),
               DependsOn := Items(Mapped(l.dependsOn, NumberToDict)),
               RollbackFor := (match l.rollbackFor case None => Null case Some(n) => Num(n)),
               LegMetadata := Fields(l.metadata)])
  }

  function PlanToDict(p: MultiLegPlan): Value {
    Fields(map[ForwardLegs := Items(Mapped(p.forward, LegToDict)),
               RollbackLegs := Items(Mapped(p.rollback, LegToDict)),
               RollbackPlanHash := Text(p.rollbackHash)])
  }

  function Mapped<A, B>(s: seq<A>, f: A -> B): (r: seq<B>)
    ensures |r| == |s| && forall i :: 0 <= i < |s| ==> r[i] == f(s[i])
  {
    seq(|s|, i requires 0 <= i < |s| => f(s[i]))
  }

  /** `d[key]`: `None` stands for the exception a missing key raises. */
  function Need(v: Value, key: Key): Option<Value> {
    if v.Fields? && key in v.fields then Some(v.fields[key]) else None
  }

  /** `d.get(key, default)`. */
  function Get(v: Value, key: Key, default: Value): Option<Value> {
    if !v.Fields? then None else if key in v.fields then Some(v.fields[key]) else Some(default)
  }

  function AllOf<A>(s: seq<Option<A>>): (r: Option<seq<A>>)
    ensures r.Some? <==> forall i :: 0 <= i < |s| ==> s[i].Some?
    ensures r.Some? ==> |r.value| == |s| && forall i :: 0 <= i < |s| ==> s[i] == Some(r.value[i])
  {
    if s == [] then Some([])
    else match (s[0], AllOf(s[1..]))
      case (Some(a), Some(rest)) => Some([a] + rest)
      case _ => None
  }

  function InteractionFromDict(v: Value): Option<Interaction> {
    match (Need(v, Target), Need(v, CallValue), Need(v, CallData), Get(v, ChainId, Num(0)))
    case (Some(Text(t)), Some(Text(w)), Some(Text(c)), Some(Num(n))) => Some(Interaction(t, w, c, n))
    case _ => None
  }

  function NumberToDict(n: int): Value {
    Num(n)
  }

  function NumberFromDict(v: Value): Option<int> {
    match v case Num(n) => Some(n) case _ => None
  }

  function InteractionsFrom(v: Option<Value>): Option<seq<Interaction>> {
    match v
    case Some(Items(s)) => AllOf(Mapped(s, InteractionFromDict))
    case _ => None
  }

  function NumbersFrom(v: Option<Value>): Option<seq<int>> {
    match v
    case Some(Items(s)) => AllOf(Mapped(s, NumberFromDict))
    case _ => None
  }

  function TargetFrom(v: Option<Value>): Option<Option<int>> {
    match v
    case Some(Null) => Some(None)
    case Some(Num(n)) => Some(Some(n))
    case _ => None
  }

  function LegFromDict(v: Value): Option<LegPlan> {
    match (Need(v, LegIndex), Need(v, ChainId), Get(v, IntentSelector, Text("")),
           Get(v, IntentParamsHex, Text("")), Get(v, LegMetadata, Fields(map[])))
    case (Some(Num(n)), Some(Num(c)), Some(Text(s)), Some(Text(p)), Some(Fields(m))) =>
      (match (InteractionsFrom(Get(v, Interactions, Items([]))),
              NumbersFrom(Get(v, DependsOn, Items([]))),
              TargetFrom(Get(v, RollbackFor, Null)))
       case (Some(ixs), Some(deps), Some(back)) => Some(LegPlan(n, c, s, p, ixs, deps, back, m))
       case _ => None)
    case _ => None
  }

  function LegsFrom(v: Option<Value>): Option<seq<LegPlan>> {
    match v
    case Some(Items(s)) => AllOf(Mapped(s, LegFromDict))
    case _ => None
  }

  function PlanFromDict(v: Value): Option<MultiLegPlan> {
    match (LegsFrom(Get(v, ForwardLegs, Items([]))),
           LegsFrom(Get(v, RollbackLegs, Items([]))),
           Get(v, RollbackPlanHash, Text("")))
    case (Some(f), Some(r), Some(Text(h))) => Some(MultiLegPlan(f, r, h))
    case _ => None
  }

  lemma AllMapped<A, B>(s: seq<A>, to: A -> B, from: B -> Option<A>)
    requires forall i :: 0 <= i < |s| ==> from(to(s[i])) == Some(s[i])
    ensures AllOf(Mapped(Mapped(s, to), from)) == Some(s)
  {
    var back := Mapped(Mapped(s, to), from);
    assert forall i :: 0 <= i < |s| ==> back[i] == Some(s[i]);
    assert AllOf(back).Some?;
    assert AllOf(back).value == s;
  }

  lemma InteractionRoundTrip(ix: Interaction)
    ensures InteractionFromDict(InteractionToDict(ix)) == Some(ix)
  {
  }

  lemma InteractionsRoundTrip(s: seq<Interaction>)
    ensures InteractionsFrom(Some(Items(Mapped(s, InteractionToDict)))) == Some(s)
  {
    forall i | 0 <= i < |s| ensures InteractionFromDict(InteractionToDict(s[i])) == Some(s[i]) {
      InteractionRoundTrip(s[i]);
    }
    AllMapped(s, InteractionToDict, InteractionFromDict);
  }

  lemma NumbersRoundTrip(s: seq<int>)
    ensures NumbersFrom(Some(Items(Mapped(s, NumberToDict)))) == Some(s)
  {
    AllMapped(s, NumberToDict, NumberFromDict);
  }

  lemma LegRoundTrip(l: LegPlan)
    ensures LegFromDict(LegToDict(l)) == Some(l)
  {
    var v := LegToDict(l);
    InteractionsRoundTrip(l.interactions);
    NumbersRoundTrip(l.dependsOn);
    assert TargetFrom(Get(v, RollbackFor, Null)) == Some(l.rollbackFor);
    assert Get(v, LegMetadata, Fields(map[])) == Some(Fields(l.metadata));
  }

  lemma LegsRoundTrip(s: seq<LegPlan>)
    ensures LegsFrom(Some(Items(Mapped(s, LegToDict)))) == Some(s)
  {
    forall i | 0 <= i < |s| ensures LegFromDict(LegToDict(s[i])) == Some(s[i]) { LegRoundTrip(s[i]); }
    AllMapped(s, LegToDict, LegFromDict);
  }

  /** The executor reads back exactly the plan the compiler wrote. */
  lemma PlanRoundTrip(p: MultiLegPlan)
    ensures PlanFromDict(PlanToDict(p)) == Some(p)
  {
    LegsRoundTrip(p.forward);
    LegsRoundTrip(p.rollback);
  }

  /** What a reader makes of a dictionary that leaves out all it may, and that it must have the rest. */
  lemma MissingKeysDefault(target: string, value: string, data: string, index: int, chain: int)
    ensures InteractionFromDict(Fields(map[Target := Text(target), CallValue := Text(value), CallData := Text(data)])) ==
            Some(Interaction(target, value, data, 0))
    ensures LegFromDict(Fields(map[LegIndex := Num(index), ChainId := Num(chain)])) ==
            Some(LegPlan(index, chain, "", "", [], [], None, map[]))
    ensures PlanFromDict(Fields(map[])) == Some(MultiLegPlan([], [], ""))
    ensures forall v :: LegFromDict(v).Some? ==> v.Fields? && LegIndex in v.fields && ChainId in v.fields
    ensures forall v :: InteractionFromDict(v).Some? ==> v.Fields? && {Target, CallValue, CallData} <= v.fields.Keys
  {
    var leg := Fields(map[LegIndex := Num(index), ChainId := Num(chain)]);
    InteractionsRoundTrip([]);
    NumbersRoundTrip([]);
    assert InteractionsFrom(Get(leg, Interactions, Items([]))) == Some([]);
    assert NumbersFrom(Get(leg, DependsOn, Items([]))) == Some([]);
  }

  // ---------------------------------------------------------------- what counts as a bridge call

  /** A call is a bridge call exactly if its data, with or without the prefix, begins with the listed selector. */
  lemma BridgeCallsExactly(ix: Interaction)
    ensures CallsBridge(ix) <==>
            "0x81b4e8b4" <= ix.callData || (!("0x" <= ix.callData) && "81b4e8b4" <= ix.callData)
  {
    var d := ix.callData;
    if "0x" <= d {
      assert d == d[..2] + d[2..] && "0x81b4e8b4" == "0x" + "81b4e8b4";
      if "0x81b4e8b4" <= d { assert d[2..][..8] == "81b4e8b4"; }
      if CallsBridge(ix) { assert d[..10] == "0x" + d[2..][..8]; }
    } else {
      assert "81b4e8b4" <= d ==> d[..8] == "81b4e8b4";
      assert CallsBridge(ix) ==> d[..8] == "81b4e8b4";
    }
  }

  /** What a dictionary's value says in a condition. */
  lemma SaidExactly(m: Metadata, key: Key)
    ensures Says(m, key) <==>
              key in m && m[key] !in {Null, Flag(false), Num(0), Text(""), Items([]), Fields(map[])}
  {
  }
}
