/** External connectors and their quarantine. */
module Connectors {
  import opened Wrappers

  datatype ConnectorState = Active | Quarantined | Acknowledged

  class Connector {
    const connectorId: string
    var state: ConnectorState
    var quarantinedAssets: set<string>
    var lastRevocation: Option<int>

    constructor (connectorId: string)
      ensures this.connectorId == connectorId && View() == NewConnector
    {
      this.connectorId := connectorId;
      state, quarantinedAssets, lastRevocation := Active, {}, None;
    }

    predicate CanServe(assetId: string)
      reads this
      ensures CanServe(assetId) <==> Serves(View(), assetId)
    {
      state == Active && assetId !in quarantinedAssets
    }

    ghost function View(): ConnectorView
      reads this
    {
      ConnectorView(state, quarantinedAssets, lastRevocation)
    }
  }

  // ---------- the registry as a value ----------

  datatype ConnectorView = ConnectorView(state: ConnectorState, quarantined: set<string>, last: Option<int>)

  type RegistryView = map<string, ConnectorView>

  const NewConnector := ConnectorView(Active, {}, None)

  predicate Serves(c: ConnectorView, assetId: string) {
    c.state == Active && assetId !in c.quarantined
  }

  function Quarantine1(c: ConnectorView, assetId: string, at: int): ConnectorView {
    ConnectorView(Quarantined, c.quarantined + {assetId}, Some(at))
  }

  function QuarantineAll(v: RegistryView, assetId: string, at: int): RegistryView {
    map id | id in v :: Quarantine1(v[id], assetId, at)
  }

  datatype RegistryOp =
    | Register(id: string)
    | Quarantine(assetId: string, at: int)
    | Acknowledge(id: string)
    | Reactivate(id: string)

  datatype RegistryError = AlreadyRegistered | NoSuchConnector | StillQuarantined

  function Apply(v: RegistryView, op: RegistryOp): (RegistryView, Option<RegistryError>) {
    match op
    case Register(id) => if id in v then (v, Some(AlreadyRegistered)) else (v[id := NewConnector], None)
    case Quarantine(a, at) => (QuarantineAll(v, a, at), None)
    case Acknowledge(id) =>
      if id !in v then (v, Some(NoSuchConnector))
      else (v[id := v[id].(state := Acknowledged, quarantined := {})], None)
    case Reactivate(id) =>
      if id !in v then (v, Some(NoSuchConnector))
      else if v[id].quarantined != {} then (v, Some(StillQuarantined))
      else (v[id := v[id].(state := Active)], None)
  }

  class ConnectorRegistry {
    var connectors: map<string, Connector>

    /** Distinct ids hold distinct connector objects. */
    ghost predicate Valid()
      reads this
    {
      forall a, b | a in connectors && b in connectors && a != b :: connectors[a] != connectors[b]
    }

    ghost function View(): RegistryView
      reads this, connectors.Values
    {
      map id | id in connectors :: connectors[id].View()
    }

    constructor ()
      ensures Valid() && View() == map[] && connectors == map[]
    {
      connectors := map[];
    }

    method RegisterConnector(id: string) returns (r: Result<Connector, RegistryError>)
      requires Valid()
      modifies this
      ensures Valid()
      ensures (View(), if r.Err? then Some(r.error) else None) == Apply(old(View()), Register(id))
      ensures r.Ok? ==> fresh(r.value) && id in connectors && connectors[id] == r.value
      ensures connectors.Values <= old(connectors.Values) + if r.Ok? then {r.value} else {}
    {
      if id in connectors { return Err(AlreadyRegistered); }
      var c := new Connector(id);
      connectors := connectors[id := c];
      assert View() == old(View())[id := NewConnector];
      return Ok(c);
    }

    /** The listener: flips every registered connector. */
    method QuarantineConnectors(assetId: string, at: int)
      requires Valid()
      modifies connectors.Values
      ensures Valid()
      ensures View() == Apply(old(View()), Quarantine(assetId, at)).0
      ensures forall c | c in connectors.Values :: c.View() == Quarantine1(old(c.View()), assetId, at)
    {
      var todo := connectors.Keys;
      while todo != {}
        invariant todo <= connectors.Keys
        invariant forall id | id in connectors ::
                    connectors[id].View() == if id in todo then old(connectors[id].View())
                                             else Quarantine1(old(connectors[id].View()), assetId, at)
        decreases todo
      {
        var id :| id in todo;
        var c := connectors[id];
        c.state := Quarantined;
        c.quarantinedAssets := c.quarantinedAssets + {assetId};
        c.lastRevocation := Some(at);
        todo := todo - {id};
      }
    }

    method AcknowledgeConnector(id: string) returns (r: Result<Connector, RegistryError>)
      requires Valid()
      modifies connectors.Values
      ensures Valid()
      ensures (View(), if r.Err? then Some(r.error) else None) == Apply(old(View()), Acknowledge(id))
    {
      if id !in connectors { return Err(NoSuchConnector); }
      var c := connectors[id];
      c.state := Acknowledged;
      c.quarantinedAssets := {};
      assert View() == Apply(old(View()), Acknowledge(id)).0;
      return Ok(c);
    }

    method ReactivateConnector(id: string) returns (r: Result<Connector, RegistryError>)
      requires Valid()
      modifies connectors.Values
      ensures Valid()
      ensures (View(), if r.Err? then Some(r.error) else None) == Apply(old(View()), Reactivate(id))
    {
      if id !in connectors { return Err(NoSuchConnector); }
      var c := connectors[id];
      if c.quarantinedAssets != {} { return Err(StillQuarantined); }
      c.state := Active;
      assert View() == Apply(old(View()), Reactivate(id)).0;
      return Ok(c);
    }
  }

  // ---------- quarantine over all runs ----------

  function RunOps(v: RegistryView, ops: seq<RegistryOp>): RegistryView {
    if ops == [] then v else Apply(RunOps(v, ops[..|ops| - 1]), ops[|ops| - 1]).0
  }

  ghost predicate Coherent(v: RegistryView) {
    forall id | id in v :: v[id].state == Quarantined <==> v[id].quarantined != {}
  }

  /** A connector is Quarantined exactly when its quarantined set is non-empty, in every run. */
  lemma {:induction false} CoherentAlways(ops: seq<RegistryOp>)
    ensures Coherent(RunOps(map[], ops))
  {
    if ops != [] {
      CoherentAlways(ops[..|ops| - 1]);
    }
  }

  /** Acknowledged since the last quarantine. */
  ghost predicate Cleared(ops: seq<RegistryOp>, id: string) {
    exists j | 0 <= j < |ops| :: ops[j] == Acknowledge(id) && forall q | j < q < |ops| :: !ops[q].Quarantine?
  }

  /** Reactivated once it was cleared, and since then neither quarantined nor acknowledged again. */
  ghost predicate BackInService(ops: seq<RegistryOp>, id: string) {
    exists k | 0 <= k < |ops| ::
      && ops[k] == Reactivate(id) && Cleared(ops[..k], id)
      && forall q | k < q < |ops| :: !ops[q].Quarantine? && ops[q] != Acknowledge(id)
  }

  lemma {:induction false} ClearedExtends(ops: seq<RegistryOp>, op: RegistryOp, id: string)
    ensures Cleared(ops + [op], id) <==> op == Acknowledge(id) || (Cleared(ops, id) && !op.Quarantine?)
  {
    var more := ops + [op];
    assert more[|ops|] == op;
    if Cleared(ops, id) && !op.Quarantine? {
      var j :| 0 <= j < |ops| && ops[j] == Acknowledge(id) && forall q | j < q < |ops| :: !ops[q].Quarantine?;
      assert more[j] == Acknowledge(id) && forall q | j < q < |more| :: !more[q].Quarantine?;
    }
    if Cleared(more, id) && op != Acknowledge(id) {
      var j :| 0 <= j < |more| && more[j] == Acknowledge(id) && forall q | j < q < |more| :: !more[q].Quarantine?;
      assert ops[j] == Acknowledge(id) && forall q | j < q < |ops| :: ops[q] == more[q];
    }
  }

  lemma {:induction false} BackExtends(ops: seq<RegistryOp>, op: RegistryOp, id: string)
    ensures BackInService(ops + [op], id) <==>
              || (op == Reactivate(id) && Cleared(ops, id))
              || (BackInService(ops, id) && !op.Quarantine? && op != Acknowledge(id))
  {
    var more := ops + [op];
    assert more[|ops|] == op && more[..|ops|] == ops;
    if BackInService(ops, id) && !op.Quarantine? && op != Acknowledge(id) {
      var k :| 0 <= k < |ops| && ops[k] == Reactivate(id) && Cleared(ops[..k], id)
               && forall q | k < q < |ops| :: !ops[q].Quarantine? && ops[q] != Acknowledge(id);
      assert more[k] == Reactivate(id) && more[..k] == ops[..k];
    }
    if BackInService(more, id) {
      var k :| 0 <= k < |more| && more[k] == Reactivate(id) && Cleared(more[..k], id)
               && forall q | k < q < |more| :: !more[q].Quarantine? && more[q] != Acknowledge(id);
      if k < |ops| {
        assert ops[k] == Reactivate(id) && more[..k] == ops[..k] && forall q | k < q < |ops| :: ops[q] == more[q];
      }
    }
  }

  /** The connector's two fields are told by the operations since the registry was last notified. */
  ghost predicate ToldByHistory(c: ConnectorView, ops: seq<RegistryOp>, id: string) {
    && (c.quarantined == {} <==> Cleared(ops, id))
    && (c.state == Active <==> BackInService(ops, id))
    && (c.state == Active ==> c.quarantined == {})
  }

  lemma {:induction false} ToldStep(v: RegistryView, ops: seq<RegistryOp>, op: RegistryOp, id: string)
    requires id in v && ToldByHistory(v[id], ops, id)
    ensures id in Apply(v, op).0 && ToldByHistory(Apply(v, op).0[id], ops + [op], id)
  {
    ClearedExtends(ops, op, id);
    BackExtends(ops, op, id);
    if op.Quarantine? {
      assert op.assetId in Apply(v, op).0[id].quarantined;
    }
  }

  lemma {:induction false} AfterQuarantine(v: RegistryView, assetId: string, at: int, ops: seq<RegistryOp>, id: string)
    requires id in v
    ensures var after := RunOps(QuarantineAll(v, assetId, at), ops);
            id in after && ToldByHistory(after[id], ops, id)
  {
    var start := QuarantineAll(v, assetId, at);
    if ops == [] {
      assert assetId in start[id].quarantined;
    } else {
      var n := |ops| - 1;
      AfterQuarantine(v, assetId, at, ops[..n], id);
      ToldStep(RunOps(start, ops[..n]), ops[..n], ops[n], id);
      assert ops == ops[..n] + [ops[n]];
    }
  }

  /**
   * After a withdrawal has notified the registry, a connector registered at that time serves an asset, any asset, exactly
   * when since its last quarantine it was acknowledged, then reactivated, and not acknowledged again after that.
   */
  lemma {:induction false} ServesIffBackInService(before: seq<RegistryOp>, assetId: string, at: int, ops: seq<RegistryOp>, id: string, wanted: string)
    requires id in RunOps(map[], before)
    ensures var after := RunOps(Apply(RunOps(map[], before), Quarantine(assetId, at)).0, ops);
            id in after && (Serves(after[id], wanted) <==> BackInService(ops, id))
  {
    AfterQuarantine(RunOps(map[], before), assetId, at, ops, id);
  }

  // ---------- what a connector remembers ----------

  /** Registered at `i`, for the first time. */
  ghost predicate RegisteredAt(ops: seq<RegistryOp>, i: int, id: string) {
    0 <= i < |ops| && ops[i] == Register(id) && forall j | 0 <= j < i :: ops[j] != Register(id)
  }

  ghost predicate QuarantinedSince(ops: seq<RegistryOp>, i: nat, id: string, assetId: string) {
    exists j | i < j < |ops| :: ops[j].Quarantine? && ops[j].assetId == assetId && forall q | j < q < |ops| :: ops[q] != Acknowledge(id)
  }

  /** The time of the last quarantine after `i`, if any. */
  ghost function LastQuarantine(ops: seq<RegistryOp>, i: nat): Option<int> {
    if |ops| - 1 <= i || ops == [] then None
    else if ops[|ops| - 1].Quarantine? then Some(ops[|ops| - 1].at)
    else LastQuarantine(ops[..|ops| - 1], i)
  }

  ghost predicate Remembers(ops: seq<RegistryOp>, i: nat, id: string) {
    var v := RunOps(map[], ops);
    && id in v
    && (forall a :: a in v[id].quarantined <==> QuarantinedSince(ops, i, id, a))
    && v[id].last == LastQuarantine(ops, i)
  }

  lemma {:induction false} SinceExtends(before: seq<RegistryOp>, op: RegistryOp, i: nat, id: string, a: string)
    requires i < |before|
    ensures QuarantinedSince(before + [op], i, id, a) <==>
              (op.Quarantine? && op.assetId == a) || (QuarantinedSince(before, i, id, a) && op != Acknowledge(id))
  {
    var ops := before + [op];
    assert ops[|before|] == op && forall q | 0 <= q < |before| :: ops[q] == before[q];
    if op.Quarantine? && op.assetId == a {
      assert ops[|before|].Quarantine?;
    }
    if j :| i < j < |before| && before[j].Quarantine? && before[j].assetId == a && forall q | j < q < |before| :: before[q] != Acknowledge(id) {
      if op != Acknowledge(id) {
        assert ops[j].Quarantine? && ops[j].assetId == a && forall q | j < q < |ops| :: ops[q] != Acknowledge(id);
      }
    }
    if j :| i < j < |ops| && ops[j].Quarantine? && ops[j].assetId == a && forall q | j < q < |ops| :: ops[q] != Acknowledge(id) {
      if j < |before| {
        assert before[j].Quarantine? && forall q | j < q < |before| :: before[q] != Acknowledge(id);
        assert ops[|before|] != Acknowledge(id);
      }
    }
  }

  lemma {:induction false} NotRegistered(ops: seq<RegistryOp>, id: string)
    requires forall j | 0 <= j < |ops| :: ops[j] != Register(id)
    ensures id !in RunOps(map[], ops)
  {
    if ops != [] {
      NotRegistered(ops[..|ops| - 1], id);
    }
  }

  /**
   * In every run a registered connector has quarantined exactly the assets withdrawn since it was last acknowledged, or
   * registered, and remembers the time of the last of all withdrawals since its registration.
   */
  lemma {:induction false} ConnectorIsItsHistory(ops: seq<RegistryOp>, i: nat, id: string)
    requires RegisteredAt(ops, i, id)
    ensures Remembers(ops, i, id)
  {
    var n := |ops| - 1;
    var before, op := ops[..n], ops[n];
    assert before + [op] == ops;
    if i == n {
      NotRegistered(before, id);
      assert forall a :: !QuarantinedSince(ops, i, id, a);
    } else {
      ConnectorIsItsHistory(before, i, id);
      forall a ensures QuarantinedSince(ops, i, id, a) <==>
                         (op.Quarantine? && op.assetId == a) || (QuarantinedSince(before, i, id, a) && op != Acknowledge(id))
      {
        SinceExtends(before, op, i, id, a);
      }
    }
  }

  /** A refused operation changes nothing, and says which fault it has. */
  lemma {:induction false} RefusedOps(v: RegistryView, op: RegistryOp)
    ensures Apply(v, op).1 == match op
      case Register(id) => if id in v.Keys then Some(AlreadyRegistered) else None
      case Quarantine(_, _) => None
      case Acknowledge(id) => if id in v.Keys then None else Some(NoSuchConnector)
      case Reactivate(id) => if id !in v.Keys then Some(NoSuchConnector) else if |v[id].quarantined| > 0 then Some(StillQuarantined) else None
    ensures Apply(v, op).1.Some? ==> Apply(v, op).0 == v
  {
  }
}
