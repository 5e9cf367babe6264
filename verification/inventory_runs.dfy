/** Runs of all inventory calls, the legacy clean-up included. */
module InventoryRuns {
  import opened Inventory
  import opened InventoryReconcile

  /** A service call, or a clean-up pass with its listing, its unused ids and the answers of the probes. */
  datatype Call = Service(op: Op) | Reconcile(listing: seq<Cluster>, ids: seq<string>, prober: Prober)

  /** What the database guarantees of a pass: it lists the clusters that are there, and new ids are unused. */
  ghost predicate Possible(t: Tables, call: Call) { call.Reconcile? ==> Inputs(t, call.listing, call.ids) }

  ghost function Perform(t: Tables, call: Call): Tables
    requires Possible(t, call)
  {
    match call
    case Service(op) => Apply(t, op)
    case Reconcile(listing, ids, prober) => All(t, listing, ids, prober)
  }

  ghost predicate Runs(t: Tables, calls: seq<Call>)
    decreases |calls|
  {
    calls == [] || (Possible(t, calls[0]) && Runs(Perform(t, calls[0]), calls[1..]))
  }

  ghost function Run(t: Tables, calls: seq<Call>): Tables
    requires Runs(t, calls)
    decreases |calls|
  {
    if calls == [] then t else Run(Perform(t, calls[0]), calls[1..])
  }

  /** Every run keeps each host owned by exactly one existing cluster or datacenter, and ids and names unique. */
  lemma {:induction false} RunKeepsOwnership(t: Tables, calls: seq<Call>)
    requires Valid(t) && Runs(t, calls)
    ensures Valid(Run(t, calls))
    decreases |calls|
  {
    if calls != [] {
      hide Valid, Apply, All;
      match calls[0] {
        case Service(op) => ApplyKeepsValid(t, op);
        case Reconcile(listing, ids, prober) => ReconcileConserves(t, listing, ids, prober);
      }
      RunKeepsOwnership(Perform(t, calls[0]), calls[1..]);
    }
  }
}
