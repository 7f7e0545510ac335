/** Bringing the secrets on the device to the configured ones. */
module Secrets {
  datatype Secret = Secret(name: string, data: string)

  datatype Action = Create(data: string) | Update(data: string) | Remove

  /** What became of an operation. An update removes the secret and creates it again: when only the
      first half succeeds, the secret is gone. */
  datatype Fate = Done | Untouched | Gone

  /** One operation on the device's secret store. */
  datatype Operation = Operation(name: string, action: Action, fate: Fate)

  function FateOf(action: Action, removeFails: bool, createFails: bool): Fate
  {
    match action
    case Create(_) => if createFails then Untouched else Done
    case Update(_) => if removeFails then Untouched else if createFails then Gone else Done
    case Remove => if removeFails then Untouched else Done
  }

  predicate DistinctNames(secrets: seq<Secret>)
  {
    forall i, j :: 0 <= i < j < |secrets| ==> secrets[i].name != secrets[j].name
  }

  function ConfiguredFirst(secrets: seq<Secret>, i: nat): map<string, string>
    requires i <= |secrets|
  {
    if i == 0 then map[] else ConfiguredFirst(secrets, i - 1)[secrets[i - 1].name := secrets[i - 1].data]
  }

  function Configured(secrets: seq<Secret>): map<string, string>
  {
    ConfiguredFirst(secrets, |secrets|)
  }

  function Performed(store: map<string, string>, op: Operation): map<string, string>
  {
    match op.fate
    case Untouched => store
    case Gone => store - {op.name}
    case Done =>
      match op.action
      case Create(data) => store[op.name := data]
      case Update(data) => store[op.name := data]
      case Remove => store - {op.name}
  }

  function PerformedAll(store: map<string, string>, ops: seq<Operation>): map<string, string>
  {
    if ops == [] then store
    else Performed(PerformedAll(store, ops[..|ops| - 1]), ops[|ops| - 1])
  }

  function Failures(ops: seq<Operation>): nat
  {
    if ops == [] then 0 else Failures(ops[..|ops| - 1]) + (if ops[|ops| - 1].fate.Done? then 0 else 1)
  }

  lemma {:induction false} NoFailures(ops: seq<Operation>)
    ensures Failures(ops) == 0 <==> forall op :: op in ops ==> op.fate.Done?
  {
    if ops != [] {
      var front, last := ops[..|ops| - 1], ops[|ops| - 1];
      NoFailures(front);
      assert ops == front + [last];
    }
  }

  /** The one action that is right for a name: create if new, update if common, remove if stale. */
  ghost predicate RightAction(store: map<string, string>, config: map<string, string>, op: Operation)
  {
    && (op.fate.Gone? ==> op.action.Update?)
    && if op.name in config then
         op.action == (if op.name in store then Update(config[op.name]) else Create(config[op.name]))
       else op.name in store && op.action == Remove
  }

  /** Every configured and every present name gets exactly one operation, the right one. */
  ghost predicate Reconciles(store: map<string, string>, config: map<string, string>, ops: seq<Operation>)
  {
    && (forall i, j :: 0 <= i < j < |ops| ==> ops[i].name != ops[j].name)
    && (forall op :: op in ops ==> RightAction(store, config, op))
    && (forall name :: name in config || name in store ==> exists op :: op in ops && op.name == name)
  }

  /** The names done so far got exactly one operation each, the right one. */
  ghost predicate Handles(store: map<string, string>, config: map<string, string>, ops: seq<Operation>,
                          done: set<string>)
  {
    && (forall i, j :: 0 <= i < j < |ops| ==> ops[i].name != ops[j].name)
    && (forall op :: op in ops ==> RightAction(store, config, op) && op.name in done)
    && (forall name :: name in done ==> exists op :: op in ops && op.name == name)
  }

  lemma NothingHandled(store: map<string, string>, config: map<string, string>)
    ensures Handles(store, config, [], {})
  {
  }

  lemma RightFor(store: map<string, string>, config: map<string, string>, op: Operation)
    requires op.fate.Gone? ==> op.action.Update?
    requires if op.name in config then
               op.action == (if op.name in store then Update(config[op.name]) else Create(config[op.name]))
             else op.name in store && op.action == Remove
    ensures RightAction(store, config, op)
  {
  }

  lemma AllHandled(store: map<string, string>, config: map<string, string>, ops: seq<Operation>, done: set<string>)
    requires Handles(store, config, ops, done) && config.Keys + store.Keys <= done
    ensures Reconciles(store, config, ops)
  {
  }

  lemma HandlesOneMore(store: map<string, string>, config: map<string, string>, ops: seq<Operation>,
                       done: set<string>, op: Operation)
    requires Handles(store, config, ops, done) && op.name !in done && RightAction(store, config, op)
    ensures Handles(store, config, ops + [op], done + {op.name})
  {
    forall i, j | 0 <= i < j < |ops + [op]|
      ensures (ops + [op])[i].name != (ops + [op])[j].name
    {
      assert ops[i] in ops;
    }
    forall name | name in done + {op.name}
      ensures exists other :: other in ops + [op] && other.name == name
    {
      if name == op.name {
        assert op in ops + [op];
      } else {
        var other :| other in ops && other.name == name;
        assert other in ops + [op];
      }
    }
  }

  lemma PerformedNothing(store: map<string, string>)
    ensures PerformedAll(store, []) == store
  {
  }

  lemma PerformedSnoc(store: map<string, string>, ops: seq<Operation>, op: Operation)
    ensures PerformedAll(store, ops + [op]) == Performed(PerformedAll(store, ops), op)
    ensures Failures(ops + [op]) == Failures(ops) + (if op.fate.Done? then 0 else 1)
  {
    assert (ops + [op])[..|ops|] == ops;
  }

  /** The store, the errors and the outcomes after some operations; the failing steps are given by
      the position of the operation. */
  ghost predicate Tracks(store: map<string, string>, now: map<string, string>, ops: seq<Operation>, errors: nat,
                         removeFails: nat -> bool, createFails: nat -> bool)
  {
    && now == PerformedAll(store, ops) && errors == Failures(ops)
    && forall k :: 0 <= k < |ops| ==> ops[k].fate == FateOf(ops[k].action, removeFails(k), createFails(k))
  }

  lemma NothingTracked(store: map<string, string>, removeFails: nat -> bool, createFails: nat -> bool)
    ensures Tracks(store, store, [], 0, removeFails, createFails)
  {
  }

  lemma TrackedAll(store: map<string, string>, now: map<string, string>, ops: seq<Operation>, errors: nat,
                   removeFails: nat -> bool, createFails: nat -> bool)
    requires Tracks(store, now, ops, errors, removeFails, createFails)
    ensures now == PerformedAll(store, ops) && errors == Failures(ops)
    ensures forall k :: 0 <= k < |ops| ==> ops[k].fate == FateOf(ops[k].action, removeFails(k), createFails(k))
  {
  }

  lemma TracksOneMore(store: map<string, string>, now: map<string, string>, ops: seq<Operation>, errors: nat,
                      removeFails: nat -> bool, createFails: nat -> bool, op: Operation)
    requires Tracks(store, now, ops, errors, removeFails, createFails)
    requires op.fate == FateOf(op.action, removeFails(|ops|), createFails(|ops|))
    ensures Tracks(store, Performed(now, op), ops + [op], errors + (if op.fate.Done? then 0 else 1),
                   removeFails, createFails)
    ensures op.fate.Gone? ==> op.action.Update?
  {
    hide PerformedAll, Failures, Performed;
    PerformedSnoc(store, ops, op);
  }

  /** Operations that leave the store untouched or concern other names leave a name alone. */
  lemma {:induction false} PerformedElsewhere(store: map<string, string>, ops: seq<Operation>, name: string)
    requires forall i :: 0 <= i < |ops| && ops[i].name == name ==> ops[i].fate.Untouched?
    ensures name in PerformedAll(store, ops) <==> name in store
    ensures name in store ==> PerformedAll(store, ops)[name] == store[name]
  {
    if ops != [] {
      PerformedElsewhere(store, ops[..|ops| - 1], name);
    }
  }

  /** The one operation on a name decides what the store holds for it. */
  lemma {:induction false} PerformedHere(store: map<string, string>, ops: seq<Operation>, k: nat)
    requires k < |ops| && !ops[k].fate.Untouched?
    requires forall i :: k < i < |ops| ==> ops[i].name != ops[k].name
    ensures var name, after := ops[k].name, PerformedAll(store, ops);
            if ops[k].fate.Gone? || ops[k].action.Remove? then name !in after
            else name in after && after[name] == ops[k].action.data
  {
    if k < |ops| - 1 {
      PerformedHere(store, ops[..|ops| - 1], k);
    }
  }

  /** Whatever fails, a secret whose operation succeeded is at its target, one whose operation failed
      at once is as it was before, and one that an update removed and could not create again is
      gone. */
  lemma SecretsAfterFailures(store: map<string, string>, config: map<string, string>, ops: seq<Operation>,
                             op: Operation)
    requires Reconciles(store, config, ops) && op in ops
    ensures var after := PerformedAll(store, ops);
            match op.fate
            case Done =>
              (op.name in after <==> op.name in config) && (op.name in config ==> after[op.name] == config[op.name])
            case Untouched =>
              (op.name in after <==> op.name in store) && (op.name in store ==> after[op.name] == store[op.name])
            case Gone =>
              op.name in store && op.name in config && op.name !in after
  {
    var k :| 0 <= k < |ops| && ops[k] == op;
    if op.fate.Untouched? {
      PerformedElsewhere(store, ops, op.name);
    } else {
      PerformedHere(store, ops, k);
    }
  }

  /** So a secret that is both stored and configured is lost exactly when its update failed after
      its remove; every other failure leaves it in place. */
  lemma LostExactlyBetweenRemoveAndCreate(store: map<string, string>, config: map<string, string>,
                                          ops: seq<Operation>, name: string)
    requires Reconciles(store, config, ops) && name in store && name in config
    ensures name !in PerformedAll(store, ops) <==> Operation(name, Update(config[name]), Gone) in ops
  {
    var op :| op in ops && op.name == name;
    SecretsAfterFailures(store, config, ops, op);
    if Operation(name, Update(config[name]), Gone) in ops {
      SecretsAfterFailures(store, config, ops, Operation(name, Update(config[name]), Gone));
    }
  }

  /** That does happen: with one secret and a create that fails nothing is left of it. */
  lemma UpdateCanLoseSecret()
    ensures var store, config, ops := map["s" := "old"], map["s" := "new"],
                                      [Operation("s", Update("new"), FateOf(Update("new"), false, true))];
            Reconciles(store, config, ops) && PerformedAll(store, ops) == map[]
  {
    var store := map["s" := "old"];
    var op := Operation("s", Update("new"), Gone);
    PerformedSnoc(store, [], op);
    assert [] + [op] == [op] && op in [op];
  }

  /** A lost secret that is still configured is created by the next update that can list the
      secrets, and once that succeeds it is as configured. */
  lemma LostSecretIsCreatedAgain(store: map<string, string>, config: map<string, string>, ops: seq<Operation>,
                                 config': map<string, string>, ops': seq<Operation>, name: string)
    requires Reconciles(store, config, ops) && Reconciles(PerformedAll(store, ops), config', ops')
    requires name in config && Operation(name, Update(config[name]), Gone) in ops && name in config'
    ensures exists op :: op in ops' && op.name == name && op.action == Create(config'[name])
    ensures var after := PerformedAll(PerformedAll(store, ops), ops');
            name in after <==> Operation(name, Create(config'[name]), Done) in ops'
    ensures var after := PerformedAll(PerformedAll(store, ops), ops');
            name in after ==> after[name] == config'[name]
  {
    SecretsAfterFailures(store, config, ops, Operation(name, Update(config[name]), Gone));
    var op :| op in ops' && op.name == name;
    SecretsAfterFailures(PerformedAll(store, ops), config', ops', op);
    if Operation(name, Create(config'[name]), Done) in ops' {
      SecretsAfterFailures(PerformedAll(store, ops), config', ops', Operation(name, Create(config'[name]), Done));
    }
  }

  /** With no failing operation the device store equals the configuration. */
  lemma AllSucceededEqualsConfig(store: map<string, string>, config: map<string, string>, ops: seq<Operation>)
    requires Reconciles(store, config, ops) && forall op :: op in ops ==> op.fate.Done?
    ensures PerformedAll(store, ops) == config
  {
    var after := PerformedAll(store, ops);
    forall name
      ensures name in after <==> name in config
      ensures name in config ==> after[name] == config[name]
    {
      if name in config || name in store {
        var op :| op in ops && op.name == name;
        SecretsAfterFailures(store, config, ops, op);
      } else {
        assert forall i :: 0 <= i < |ops| ==> RightAction(store, config, ops[i]);
        PerformedElsewhere(store, ops, name);
      }
    }
  }

  lemma {:induction false} ConfiguredMap(secrets: seq<Secret>, i: nat)
    requires DistinctNames(secrets) && i <= |secrets|
    ensures forall k :: 0 <= k < i ==>
              && secrets[k].name in ConfiguredFirst(secrets, i)
              && ConfiguredFirst(secrets, i)[secrets[k].name] == secrets[k].data
    ensures forall name :: name in ConfiguredFirst(secrets, i) ==> exists k :: 0 <= k < i && secrets[k].name == name
  {
    if i > 0 {
      ConfiguredMap(secrets, i - 1);
      assert secrets[i - 1].name in ConfiguredFirst(secrets, i);
    }
  }

  /** What no step fails for is done. */
  lemma WithoutFaults(ops: seq<Operation>, removeFails: nat -> bool, createFails: nat -> bool)
    requires forall k :: !removeFails(k) && !createFails(k)
    requires forall k :: 0 <= k < |ops| ==> ops[k].fate == FateOf(ops[k].action, removeFails(k), createFails(k))
    ensures Failures(ops) == 0
  {
    NoFailures(ops);
  }

  lemma Created(store: map<string, string>, name: string, data: string, removeFails: bool, createFails: bool)
    returns (op: Operation)
    ensures op == Operation(name, Create(data), FateOf(Create(data), removeFails, createFails))
    ensures op.fate.Done? == !createFails && Performed(store, op) == if createFails then store else store[name := data]
  {
    op := Operation(name, Create(data), FateOf(Create(data), removeFails, createFails));
  }

  lemma Removed(store: map<string, string>, name: string, removeFails: bool, createFails: bool)
    returns (op: Operation)
    ensures op == Operation(name, Remove, FateOf(Remove, removeFails, createFails))
    ensures op.fate.Done? == !removeFails && Performed(store, op) == if removeFails then store else store - {name}
  {
    op := Operation(name, Remove, FateOf(Remove, removeFails, createFails));
  }

  class SecretStore {
    var secrets: map<string, string>

    constructor ()
      ensures secrets == map[]
    {
      secrets := map[];
    }

    constructor Holding(secrets: map<string, string>)
      ensures this.secrets == secrets
    {
      this.secrets := secrets;
    }

    method CreateSecret(name: string, data: string, fails: bool) returns (ok: bool)
      modifies this
      ensures ok == !fails && secrets == if ok then old(secrets)[name := data] else old(secrets)
    {
      if fails {
        return false;
      }
      secrets := secrets[name := data];
      return true;
    }

    method RemoveSecret(name: string, fails: bool) returns (ok: bool)
      modifies this
      ensures ok == !fails && secrets == if ok then old(secrets) - {name} else old(secrets)
    {
      if fails {
        return false;
      }
      secrets := secrets - {name};
      return true;
    }

    /** Removes the secret and creates it with the new data. */
    method UpdateSecret(name: string, data: string, removeFails: bool, createFails: bool)
      returns (ok: bool, ghost op: Operation)
      modifies this
      ensures op == Operation(name, Update(data), FateOf(Update(data), removeFails, createFails))
      ensures ok == op.fate.Done? && secrets == Performed(old(secrets), op)
    {
      op := Operation(name, Update(data), FateOf(Update(data), removeFails, createFails));
      ok := RemoveSecret(name, removeFails);
      if !ok {
        return;
      }
      ok := CreateSecret(name, data, createFails);
    }

    /** Creates, updates and removes secrets; the remove and the create of the k-th operation fail as
        removeFails(k) and createFails(k) say. */
    method UpdateSecrets(config: seq<Secret>, listFails: bool, removeFails: nat -> bool, createFails: nat -> bool)
      returns (errors: nat, ghost ops: seq<Operation>)
      modifies this
      ensures listFails ==> secrets == old(secrets) && ops == [] && errors == 1
      ensures !listFails ==> secrets == PerformedAll(old(secrets), ops) && errors == Failures(ops)
      ensures !listFails ==>
                forall k :: 0 <= k < |ops| ==> ops[k].fate == FateOf(ops[k].action, removeFails(k), createFails(k))
      ensures !listFails && DistinctNames(config) ==> Reconciles(old(secrets), Configured(config), ops)
    {
      hide Tracks, Failures, Handles, PerformedAll, Performed, ConfiguredFirst, RightAction, Reconciles, FateOf;
      if listFails {
        return 1, [];
      }
      ghost var store, target, done := secrets, Configured(config), {};
      if DistinctNames(config) {
        ConfiguredMap(config, |config|);
      }
      var deviceSecrets := secrets.Keys;
      errors, ops := 0, [];
      var k: nat := 0;
      NothingHandled(store, target);
      NothingTracked(store, removeFails, createFails);
      var i := 0;
      while i < |config|
        invariant 0 <= i <= |config|
        invariant Tracks(store, secrets, ops, errors, removeFails, createFails) && k == |ops|
        invariant deviceSecrets == store.Keys - done
        invariant forall name :: name in done <==> exists k :: 0 <= k < i && config[k].name == name
        invariant DistinctNames(config) ==> Handles(store, target, ops, done)
      {
        var s := config[i];
        ghost var held := secrets;
        ghost var op;
        var ok;
        if s.name in deviceSecrets {
          ok, op := UpdateSecret(s.name, s.data, removeFails(k), createFails(k));
          deviceSecrets := deviceSecrets - {s.name};
        } else {
          ok := CreateSecret(s.name, s.data, createFails(k));
          op := Created(held, s.name, s.data, removeFails(k), createFails(k));
        }
        TracksOneMore(store, held, ops, errors, removeFails, createFails, op);
        if DistinctNames(config) {
          RightFor(store, target, op);
          HandlesOneMore(store, target, ops, done, op);
        }
        if !ok {
          errors := errors + 1;
        }
        ops, done := ops + [op], done + {s.name};
        i, k := i + 1, k + 1;
      }
      while deviceSecrets != {}
        invariant Tracks(store, secrets, ops, errors, removeFails, createFails) && k == |ops|
        invariant deviceSecrets == store.Keys - done
        invariant forall s :: s in config ==> s.name in done
        invariant DistinctNames(config) ==> Handles(store, target, ops, done)
        decreases deviceSecrets
      {
        var name :| name in deviceSecrets;
        ghost var held := secrets;
        var ok := RemoveSecret(name, removeFails(k));
        ghost var op := Removed(held, name, removeFails(k), createFails(k));
        TracksOneMore(store, held, ops, errors, removeFails, createFails, op);
        if DistinctNames(config) {
          RightFor(store, target, op);
          HandlesOneMore(store, target, ops, done, op);
        }
        if !ok {
          errors := errors + 1;
        }
        ops, done := ops + [op], done + {name};
        deviceSecrets := deviceSecrets - {name};
        k := k + 1;
      }
      TrackedAll(store, secrets, ops, errors, removeFails, createFails);
      if DistinctNames(config) {
        AllHandled(store, target, ops, done);
      }
    }
  }
}
