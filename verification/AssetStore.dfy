/** The asset registry: registration, monotone withdrawal, synchronous notification. */
module AssetStores {
  import opened Wrappers
  import opened Mandate
  import opened Connectors

  datatype StoreError = AlreadyStored | AssetNotFound | ListenerRaised

  // ---------- the critical sections, on the asset map ----------

  function RegisterAsset(assets: map<string, Asset>, a: Asset): (map<string, Asset>, Option<StoreError>) {
    if a.assetId in assets then (assets, Some(AlreadyStored)) else (assets[a.assetId := a], None)
  }

  function WithdrawAsset(assets: map<string, Asset>, assetId: string): (map<string, Asset>, Option<StoreError>) {
    if assetId !in assets then (assets, Some(AssetNotFound))
    else (assets[assetId := Withdrawn(assets[assetId])], None)
  }

  // ---------- listeners ----------

  /** A revocation callable: a registry's `quarantine`, one that leaves this model's state alone, or one that raises. */
  datatype Listener = Quarantining(registry: ConnectorRegistry) | Passive(name: string) | Raising(name: string)

  /** How many listeners are called and return: all of them, or those before the first that raises. */
  function Reached(listeners: seq<Listener>): (n: nat)
    ensures n <= |listeners|
    ensures forall k | 0 <= k < n :: !listeners[k].Raising?
    ensures n < |listeners| ==> listeners[n].Raising?
  {
    if listeners == [] || listeners[0].Raising? then 0 else 1 + Reached(listeners[1..])
  }

  /** The connectors of the listening registries. */
  ghost function HandlesOf(listeners: seq<Listener>): set<Connector>
    reads Registries(listeners)
  {
    set l: Listener, c: Connector | l in listeners && l.Quarantining? && c in l.registry.connectors.Values :: c
  }

  ghost function Registries(listeners: seq<Listener>): set<ConnectorRegistry> {
    set l | l in listeners && l.Quarantining? :: l.registry
  }

  ghost predicate AllValid(listeners: seq<Listener>)
    reads Registries(listeners)
  {
    forall l | l in listeners && l.Quarantining? :: l.registry.Valid()
  }

  lemma {:induction false} QuarantinedTwice(c: ConnectorView, assetId: string, at: int)
    ensures Quarantine1(Quarantine1(c, assetId, at), assetId, at) == Quarantine1(c, assetId, at)
  {
    assert c.quarantined + {assetId} + {assetId} == c.quarantined + {assetId};
  }

  ghost function HandlesOfOne(l: Listener): set<Connector>
    reads if l.Quarantining? then {l.registry} else {}
  {
    if l.Quarantining? then l.registry.connectors.Values else {}
  }

  /** One call of a listener that returns. */
  method Call(l: Listener, assetId: string, at: int)
    requires !l.Raising? && (l.Quarantining? ==> l.registry.Valid())
    modifies HandlesOfOne(l)
    ensures forall c | c in HandlesOfOne(l) :: c.View() == Quarantine1(old(c.View()), assetId, at)
  {
    if l.Quarantining? {
      l.registry.QuarantineConnectors(assetId, at);
    }
  }

  /** What the connectors look like once the listeners before `n` have returned, from what they looked like. */
  ghost predicate NotifiedUpTo(listeners: seq<Listener>, n: nat, was: map<Connector, ConnectorView>, assetId: string, at: int)
    requires n <= |listeners|
    reads Registries(listeners), HandlesOf(listeners)
  {
    && was.Keys == HandlesOf(listeners)
    && forall c | c in was :: c.View() == if c in HandlesOf(listeners[..n]) then Quarantine1(was[c], assetId, at) else was[c]
  }

  /**
   * The notification loop that follows the critical section of a withdrawal: in registration order, ended by the first
   * listener that raises. A connector reached more than once is left as if reached once.
   */
  method Notify(listeners: seq<Listener>, assetId: string, at: int) returns (returned: nat)
    requires AllValid(listeners)
    modifies HandlesOf(listeners)
    ensures AllValid(listeners) && returned == Reached(listeners)
    ensures forall c | c in HandlesOf(listeners) ::
              c.View() == if c in HandlesOf(listeners[..returned]) then Quarantine1(old(c.View()), assetId, at) else old(c.View())
  {
    ghost var was := map c | c in HandlesOf(listeners) :: c.View();
    returned := 0;
    while returned < |listeners|
      invariant 0 <= returned <= |listeners|
      invariant AllValid(listeners)
      invariant returned + Reached(listeners[returned..]) == Reached(listeners)
      invariant NotifiedUpTo(listeners, returned, was, assetId, at)
    {
      if listeners[returned].Raising? { return; }
      NotifyOne(listeners, returned, was, assetId, at);
      returned := returned + 1;
    }
  }

  method NotifyOne(listeners: seq<Listener>, k: nat, ghost was: map<Connector, ConnectorView>, assetId: string, at: int)
    requires k < |listeners| && !listeners[k].Raising? && AllValid(listeners)
    requires NotifiedUpTo(listeners, k, was, assetId, at)
    modifies HandlesOf(listeners)
    ensures NotifiedUpTo(listeners, k + 1, was, assetId, at)
  {
    var l := listeners[k];
    ghost var done, all := HandlesOf(listeners[..k]), HandlesOf(listeners[..k + 1]);
    assert listeners[..k + 1] == listeners[..k] + [l];
    HandlesExtend(listeners[..k], l);
    assert HandlesOfOne(l) <= was.Keys;
    Call(l, assetId, at);
    assert HandlesOf(listeners[..k + 1]) == all && HandlesOf(listeners) == was.Keys;
    forall c | c in was ensures c.View() == if c in all then Quarantine1(was[c], assetId, at) else was[c] {
      QuarantinedTwice(was[c], assetId, at);
      assert c in all <==> c in done || c in HandlesOfOne(l);
    }
  }

  lemma {:induction false} HandlesExtend(listeners: seq<Listener>, l: Listener)
    ensures HandlesOf(listeners + [l]) == HandlesOf(listeners) + HandlesOfOne(l)
  {
    var more := listeners + [l];
    assert l in more && forall m | m in listeners :: m in more;
    assert forall m | m in more :: m in listeners || m == l;
  }

  class AssetStore {
    var assets: map<string, Asset>
    var revokedAt: map<string, int>
    var listeners: seq<Listener>

    constructor ()
      ensures assets == map[] && revokedAt == map[] && listeners == []
    {
      assets, revokedAt, listeners := map[], map[], [];
    }

    method Register(a: Asset) returns (r: Option<StoreError>)
      modifies this`assets
      ensures (assets, r) == RegisterAsset(old(assets), a)
    {
      if a.assetId in assets { return Some(AlreadyStored); }
      assets := assets[a.assetId := a];
      return None;
    }

    method Get(assetId: string) returns (a: Result<Asset, StoreError>)
      ensures a == if assetId in assets then Ok(assets[assetId]) else Err(AssetNotFound)
    {
      if assetId !in assets { return Err(AssetNotFound); }
      return Ok(assets[assetId]);
    }

    method AddRevocationListener(l: Listener)
      modifies this`listeners
      ensures listeners == old(listeners) + [l]
    {
      listeners := listeners + [l];
    }

    /** A listener that raises makes the call raise, after the flag is set and the listeners before it are notified. */
    method Withdraw(assetId: string, now: int) returns (r: Result<Asset, StoreError>)
      requires AllValid(listeners)
      modifies this`assets, this`revokedAt, HandlesOf(listeners)
      ensures AllValid(listeners)
      ensures assets == WithdrawAsset(old(assets), assetId).0
      ensures revokedAt == if assetId in old(assets) then old(revokedAt)[assetId := now] else old(revokedAt)
      ensures r == if assetId !in old(assets) then Err(AssetNotFound)
                   else if Reached(listeners) < |listeners| then Err(ListenerRaised)
                   else Ok(Withdrawn(old(assets)[assetId]))
      ensures forall c | c in HandlesOf(listeners) ::
                c.View() == if assetId in old(assets) && c in HandlesOf(listeners[..Reached(listeners)])
                            then Quarantine1(old(c.View()), assetId, now) else old(c.View())
    {
      if assetId !in assets { return Err(AssetNotFound); }
      var updated := Withdrawn(assets[assetId]);
      assets := assets[assetId := updated];
      revokedAt := revokedAt[assetId := now];
      var returned := Notify(listeners, assetId, now);
      return if returned < |listeners| then Err(ListenerRaised) else Ok(updated);
    }
  }

  // ---------- the store is its history ----------

  datatype StoreOp = RegisterOp(a: Asset) | WithdrawOp(assetId: string)

  function ApplyStore(assets: map<string, Asset>, op: StoreOp): map<string, Asset> {
    match op
    case RegisterOp(a) => RegisterAsset(assets, a).0
    case WithdrawOp(id) => WithdrawAsset(assets, id).0
  }

  function RunStore(ops: seq<StoreOp>): map<string, Asset> {
    if ops == [] then map[] else ApplyStore(RunStore(ops[..|ops| - 1]), ops[|ops| - 1])
  }

  ghost predicate Registers(op: StoreOp, id: string) {
    op.RegisterOp? && op.a.assetId == id
  }

  /** The operation at `i` is the first registration under `id`. */
  ghost predicate FirstRegistered(ops: seq<StoreOp>, i: int, id: string) {
    0 <= i < |ops| && Registers(ops[i], id) && forall j | 0 <= j < i :: !Registers(ops[j], id)
  }

  ghost predicate WithdrawnAfter(ops: seq<StoreOp>, i: nat, id: string) {
    exists j | i < j < |ops| :: ops[j] == WithdrawOp(id)
  }

  lemma {:induction false} StoreStep(assets: map<string, Asset>, op: StoreOp, id: string)
    ensures id in ApplyStore(assets, op) <==> id in assets || Registers(op, id)
    ensures id in assets ==>
              ApplyStore(assets, op)[id] == if op == WithdrawOp(id) then Withdrawn(assets[id]) else assets[id]
    ensures id !in assets && Registers(op, id) ==> ApplyStore(assets, op)[id] == op.a
  {
  }

  /** A refused step names its fault and changes nothing. */
  lemma {:induction false} StoreRefusals(assets: map<string, Asset>, a: Asset, id: string)
    ensures RegisterAsset(assets, a).1 == if a.assetId in assets.Keys then Some(AlreadyStored) else None
    ensures WithdrawAsset(assets, id).1 == if id in assets.Keys then None else Some(AssetNotFound)
    ensures RegisterAsset(assets, a).1.Some? ==> RegisterAsset(assets, a).0 == assets
    ensures WithdrawAsset(assets, id).1.Some? ==> WithdrawAsset(assets, id).0 == assets
  {
  }

  lemma {:induction false} NeverStored(ops: seq<StoreOp>, id: string)
    requires forall j | 0 <= j < |ops| :: !Registers(ops[j], id)
    ensures id !in RunStore(ops)
  {
    if ops != [] {
      NeverStored(ops[..|ops| - 1], id);
      StoreStep(RunStore(ops[..|ops| - 1]), ops[|ops| - 1], id);
    }
  }

  lemma {:induction false} StoredSince(ops: seq<StoreOp>, i: nat, id: string)
    requires FirstRegistered(ops, i, id)
    ensures id in RunStore(ops)
    ensures RunStore(ops)[id] == ops[i].a.(withdrawn := ops[i].a.withdrawn || WithdrawnAfter(ops, i, id))
  {
    var n := |ops| - 1;
    StoreStep(RunStore(ops[..n]), ops[n], id);
    if i == n {
      NeverStored(ops[..n], id);
    } else {
      StoredSince(ops[..n], i, id);
      WithdrawnExtends(ops[..n], ops[n], i, id);
      assert ops[..n] + [ops[n]] == ops;
    }
  }

  lemma {:induction false} WithdrawnExtends(before: seq<StoreOp>, op: StoreOp, i: nat, id: string)
    requires i < |before|
    ensures WithdrawnAfter(before + [op], i, id) <==> WithdrawnAfter(before, i, id) || op == WithdrawOp(id)
  {
    var ops := before + [op];
    assert ops[|before|] == op;
    if j :| i < j < |before| && before[j] == WithdrawOp(id) {
      assert ops[j] == WithdrawOp(id);
    }
  }

  lemma {:induction false} SomeFirst(ops: seq<StoreOp>, j: nat, id: string) returns (i: nat)
    requires j < |ops| && Registers(ops[j], id)
    ensures FirstRegistered(ops, i, id)
  {
    if k: nat :| k < j && Registers(ops[k], id) {
      i := SomeFirst(ops, k, id);
    } else {
      i := j;
    }
  }

  /**
   * After any history of registrations and withdrawals, refused ones included: an id is stored exactly when it was
   * registered; what is stored is its first registration, every signed field unchanged; and it is withdrawn exactly
   * when it came withdrawn or a withdrawal followed.
   */
  lemma {:induction false} StoreIsItsHistory(ops: seq<StoreOp>, id: string)
    ensures id in RunStore(ops) <==> exists j | 0 <= j < |ops| :: Registers(ops[j], id)
    ensures forall i | FirstRegistered(ops, i, id) ::
              id in RunStore(ops) && RunStore(ops)[id] == ops[i].a.(withdrawn := ops[i].a.withdrawn || WithdrawnAfter(ops, i, id))
  {
    forall i | FirstRegistered(ops, i, id)
      ensures id in RunStore(ops) && RunStore(ops)[id] == ops[i].a.(withdrawn := ops[i].a.withdrawn || WithdrawnAfter(ops, i, id))
    {
      StoredSince(ops, i, id);
    }
    if j :| 0 <= j < |ops| && Registers(ops[j], id) {
      var i := SomeFirst(ops, j, id);
    } else {
      NeverStored(ops, id);
    }
  }
}
