/** The `Transaction` collection (server/models/transactionModel.js:45): the
    stored documents by id, in the order they were inserted, and the two
    writes the controllers issue against it, `save()` of a new document and
    `findByIdAndUpdate`. The query engine itself is not modelled. */
module TransactionStore {
  import opened Wrappers
  import opened TransactionModel
  import Sorting

  /** The paths of a `findByIdAndUpdate` update document; `None` is a path
      the update does not mention. */
  datatype Update = Update(status: Option<string>, paymentStatus: Option<string>, paidAmount: Option<real>)

  /** An update applied under the schema as written: Mongoose's strict mode
      strips the paths the schema does not declare, so only `status` (and the
      `updatedAt` timestamp) can change. Update validators are off, so any
      status string is stored. */
  function ApplyUpdateStrict(t: Transaction, u: Update, now: int): (r: Transaction)
    ensures r.paymentStatus == t.paymentStatus && r.paidAmount == t.paidAmount
    ensures r.status == u.status.GetOr(t.status) && r.updatedAt == now
    ensures r.(status := t.status, updatedAt := t.updatedAt) == t
  {
    t.(status := u.status.GetOr(t.status), updatedAt := now)
  }

  /** An update applied under a schema that declares `paymentStatus` and
      `paidAmount`: every path the update mentions is written, every other
      path is kept. */
  function ApplyUpdate(t: Transaction, u: Update, now: int): (r: Transaction)
    ensures u.status.Some? ==> r.status == u.status.value
    ensures u.paymentStatus.Some? ==> r.paymentStatus == u.paymentStatus
    ensures u.paidAmount.Some? ==> r.paidAmount == u.paidAmount
    ensures u.status.None? ==> r.status == t.status
    ensures u.paymentStatus.None? ==> r.paymentStatus == t.paymentStatus
    ensures u.paidAmount.None? ==> r.paidAmount == t.paidAmount
    ensures r.updatedAt == now
    ensures r.(status := t.status, paymentStatus := t.paymentStatus, paidAmount := t.paidAmount, updatedAt := t.updatedAt) == t
  {
    t.(status := u.status.GetOr(t.status),
       paymentStatus := if u.paymentStatus.Some? then u.paymentStatus else t.paymentStatus,
       paidAmount := if u.paidAmount.Some? then u.paidAmount else t.paidAmount,
       updatedAt := now)
  }

  /** Under the schema as written, the payment callback's record of the
      payment is lost: on a document that has none, it still has none after
      the update, whatever the update says. */
  lemma StrictDropsPayment(t: Transaction, paid: real, now: int)
    requires t.paymentStatus.None? && t.paidAmount.None?
    ensures var r := ApplyUpdateStrict(t, Update(Some("completed"), Some("paid"), Some(paid)), now);
      r.status == "completed" && r.paymentStatus.None? && r.paidAmount.None?
  {
  }

  /** With the two paths declared, the update records the payment. */
  lemma DeclaredKeepsPayment(t: Transaction, paid: real, now: int)
    ensures var r := ApplyUpdate(t, Update(Some("completed"), Some("paid"), Some(paid)), now);
      r.status == "completed" && r.paymentStatus == Some("paid") && r.paidAmount == Some(paid)
  {
  }

  /** Updates that only set `status` behave the same under both schemas. */
  lemma StatusOnlyAgrees(t: Transaction, status: Option<string>, now: int)
    ensures ApplyUpdate(t, Update(status, None, None), now) == ApplyUpdateStrict(t, Update(status, None, None), now)
  {
  }

  /** The documents in insertion order, which is the order an unsorted
      `find()` returns them in. */
  function Listing(records: map<string, Transaction>, order: seq<string>): (r: seq<Transaction>)
    requires forall i :: 0 <= i < |order| ==> order[i] in records
    ensures |r| == |order|
    ensures forall i :: 0 <= i < |order| ==> r[i] == records[order[i]]
  {
    seq(|order|, i requires 0 <= i < |order| => records[order[i]])
  }

  class Store {
    var records: map<string, Transaction>
    var order: seq<string>

    /** Every stored id is listed exactly once, and each document is filed
        under its own id. */
    ghost predicate Valid()
      reads this
    {
      && Sorting.Distinct(order)
      && (forall i :: 0 <= i < |order| ==> order[i] in records)
      && (forall id :: id in records ==> id in order)
      && (forall id :: id in records ==> records[id].id == id)
    }

    function All(): (r: seq<Transaction>)
      reads this
      requires Valid()
      ensures |r| == |records|
    {
      ListingSize(records, order);
      Listing(records, order)
    }

    constructor ()
      ensures Valid() && records == map[] && order == []
    {
      records := map[];
      order := [];
    }

    /** `save()` of a validated new document. A document whose id is taken
        is refused with a duplicate-key error and nothing changes. */
    method Insert(t: Transaction) returns (ok: bool)
      requires Valid()
      modifies this
      ensures Valid()
      ensures ok <==> t.id !in old(records)
      ensures ok ==> records == old(records)[t.id := t] && order == old(order) + [t.id]
      ensures !ok ==> records == old(records) && order == old(order)
    {
      if t.id in records {
        return false;
      }
      records := records[t.id := t];
      order := order + [t.id];
      ok := true;
    }

    /** `findByIdAndUpdate(id, update, { new: true })` under the schema as
        written: the updated document, or `None` when no document has that
        id. Only the status and the update stamp of that one document can
        change, and the listing order is kept. */
    method FindByIdAndUpdate(id: string, u: Update, now: int) returns (r: Option<Transaction>)
      requires Valid()
      modifies this
      ensures Valid() && order == old(order)
      ensures id in old(records) ==> r == Some(ApplyUpdateStrict(old(records)[id], u, now))
                                     && records == old(records)[id := r.value]
      ensures id !in old(records) ==> r.None? && records == old(records)
    {
      if id !in records {
        return None;
      }
      var t := ApplyUpdateStrict(records[id], u, now);
      records := records[id := t];
      r := Some(t);
    }

    /** The same call under a schema that declares `paymentStatus` and
        `paidAmount`, so that every path the update mentions is written. */
    method FindByIdAndUpdateDeclared(id: string, u: Update, now: int) returns (r: Option<Transaction>)
      requires Valid()
      modifies this
      ensures Valid() && order == old(order)
      ensures id in old(records) ==> r == Some(ApplyUpdate(old(records)[id], u, now))
                                     && records == old(records)[id := r.value]
      ensures id !in old(records) ==> r.None? && records == old(records)
    {
      if id !in records {
        return None;
      }
      var t := ApplyUpdate(records[id], u, now);
      records := records[id := t];
      r := Some(t);
    }

    /** `findById(id)`. */
    method FindById(id: string) returns (r: Option<Transaction>)
      requires Valid()
      ensures r.Some? <==> id in records
      ensures r.Some? ==> r.value == records[id] && r.value.id == id
    {
      if id in records {
        r := Some(records[id]);
      } else {
        r := None;
      }
    }
  }

  lemma ListingSize(records: map<string, Transaction>, order: seq<string>)
    requires Sorting.Distinct(order)
    requires forall i :: 0 <= i < |order| ==> order[i] in records
    requires forall id :: id in records ==> id in order
    ensures |records| == |order|
  {
    var ids := set i | 0 <= i < |order| :: order[i];
    assert ids == records.Keys;
    DistinctCardinality(order);
  }

  lemma {:induction false} DistinctCardinality(s: seq<string>)
    requires Sorting.Distinct(s)
    ensures |set i | 0 <= i < |s| :: s[i]| == |s|
  {
    if s != [] {
      var rest := s[..|s| - 1];
      DistinctCardinality(rest);
      var a := set i | 0 <= i < |rest| :: rest[i];
      var b := set i | 0 <= i < |s| :: s[i];
      assert b == a + {s[|s| - 1]};
      assert s[|s| - 1] !in a;
    }
  }
}
