/** The tracked SAP call: its life cycle, its retry budget and its table row. */
module SapTransactions {
  import opened Common

  type TxId = string
  type Payload = map<string, string>

  datatype Status = Pending | InProgress | Success | Failed | Retrying | Exhausted

  datatype ObjectType =
    | Vehicle | Fault | RepairOrder | PmWorkOrder | MeasurementDocument
    | VehicleAssignment | PurchaseRequisition | PurchaseOrder | GoodsReceipt | GoodsIssue

  const MAX_RETRY_ATTEMPTS: nat := 3

  function Allowed(status: Status): set<Status> {
    match status
    case Pending => {InProgress}
    case InProgress => {Success, Failed}
    case Failed => {Retrying, Exhausted}
    case Retrying => {InProgress, Exhausted}
    case Success => {}
    case Exhausted => {}
  }

  /** The value of a transaction object at one moment. */
  datatype Tx = Tx(
    id: TxId, objectType: ObjectType, objectId: string, key: string, status: Status,
    retryCount: nat, maxRetries: nat, request: Payload, response: Option<Payload>,
    document: Option<string>, error: Option<string>, completedAt: Option<Time>)
  {
    predicate CanRetry() {
      status == Failed && retryCount < maxRetries
    }
  }

  /** A row of the transaction table; the two text columns are never null. */
  datatype TxRow = TxRow(
    objectType: ObjectType, objectId: string, key: string, status: Status,
    retryCount: nat, maxRetries: nat, request: Payload, response: Option<Payload>,
    document: string, error: string, completedAt: Option<Time>)

  function ToRow(t: Tx): TxRow {
    TxRow(t.objectType, t.objectId, t.key, t.status, t.retryCount, t.maxRetries, t.request,
          t.response, OrEmpty(t.document), OrEmpty(t.error), t.completedAt)
  }

  function ToDomain(id: TxId, row: TxRow): Tx {
    Tx(id, row.objectType, row.objectId, row.key, row.status, row.retryCount, row.maxRetries,
       row.request, row.response, OrNone(row.document), OrNone(row.error), row.completedAt)
  }

  function NewTx(id: TxId, objectType: ObjectType, objectId: string, key: string, request: Payload): Tx {
    Tx(id, objectType, objectId, key, Pending, 0, MAX_RETRY_ATTEMPTS, request, None, None, None, None)
  }

  /** Saving and loading a transaction changes nothing but an empty text, which comes back as "none". */
  lemma SavedAndLoaded(t: Tx)
    ensures ToDomain(t.id, ToRow(t)) == t.(document := Stored(t.document), error := Stored(t.error))
    ensures ToDomain(t.id, ToRow(ToDomain(t.id, ToRow(t)))) == ToDomain(t.id, ToRow(t))
  {
  }

  datatype RetryPreparation = Prepared | BudgetSpent | NotAllowed

  class SapTransaction {
    const id: TxId
    const objectType: ObjectType
    const objectId: string
    const key: string
    var status: Status
    var retryCount: nat
    const maxRetries: nat
    var request: Payload
    var response: Option<Payload>
    var document: Option<string>
    var error: Option<string>
    var completedAt: Option<Time>

    function View(): Tx
      reads this
    {
      Tx(id, objectType, objectId, key, status, retryCount, maxRetries, request, response, document, error,
         completedAt)
    }

    constructor (t: Tx)
      ensures View() == t
    {
      id, objectType, objectId, key := t.id, t.objectType, t.objectId, t.key;
      status, retryCount, maxRetries := t.status, t.retryCount, t.maxRetries;
      request, response, document := t.request, t.response, t.document;
      error, completedAt := t.error, t.completedAt;
    }

    method TransitionTo(target: Status) returns (ok: bool)
      modifies this`status
      ensures ok <==> target in Allowed(old(status))
      ensures status == if ok then target else old(status)
    {
      ok := target in Allowed(status);
      if ok {
        status := target;
      }
    }

    method Start() returns (ok: bool)
      modifies this`status
      ensures ok <==> old(status) == Pending || old(status) == Retrying
      ensures status == if ok then InProgress else old(status)
    {
      ok := TransitionTo(InProgress);
    }

    method Succeed(response: Payload, document: Option<string>, completedAt: Time) returns (ok: bool)
      modifies this
      ensures ok <==> old(status) == InProgress
      ensures View() == if !ok then old(View()) else
                        old(View()).(status := Success, response := Some(response), document := document,
                                     completedAt := Some(completedAt), error := None)
    {
      ok := TransitionTo(Success);
      if ok {
        this.response := Some(response);
        this.document := document;
        this.completedAt := Some(completedAt);
        this.error := None;
      }
    }

    method Fail(message: string) returns (ok: bool)
      modifies this
      ensures ok <==> old(status) == InProgress
      ensures View() == if !ok then old(View()) else old(View()).(status := Failed, error := Some(message))
    {
      ok := TransitionTo(Failed);
      if ok {
        error := Some(message);
      }
    }

    method PrepareRetry() returns (r: RetryPreparation)
      modifies this
      ensures r == Prepared <==> old(View()).CanRetry()
      ensures r == BudgetSpent <==> old(retryCount) >= maxRetries
      ensures View() == if r != Prepared then old(View()) else
                        old(View()).(status := Retrying, retryCount := old(retryCount) + 1)
    {
      if retryCount >= maxRetries {
        return BudgetSpent;
      }
      var ok := TransitionTo(Retrying);
      if !ok {
        return NotAllowed;
      }
      retryCount := retryCount + 1;
      r := Prepared;
    }

    method MarkExhausted(completedAt: Time) returns (ok: bool)
      modifies this
      ensures ok <==> old(status) == Failed || old(status) == Retrying
      ensures View() == if !ok then old(View()) else
                        old(View()).(status := Exhausted, completedAt := Some(completedAt))
    {
      ok := TransitionTo(Exhausted);
      if ok {
        this.completedAt := Some(completedAt);
      }
    }
  }
}
