# Fleet maintenance: a verified model

A Dafny model of the parts of the fleet maintenance system that keep state across calls, and proofs of
what they promise over whole runs. `dafny verify dfyconfig.toml` checks everything.

**SAP write gateway.** Every write to SAP goes through a transaction row with a unique idempotency key, a
status and a retry budget. `SapTransactions` holds the entity and its row, `SapGatewaySpec` says what each
gateway call does to the table as a function on values, and `SapGateway` holds the repository and the
manager, which load copies, mutate them and save them back; each of their methods is proved equal to its
function. Two history variables record, for every row, the statuses saved and the adapter calls made. The
adapter is arbitrary: for every key, attempt and payload it returns a pair, raises the integration error,
or raises something else. `SapGatewayLaws`, `SapGatewayRuns` and `SapSweepLaws` prove the promises over
every run of calls that follow one another, from an empty table; `SapRace` interleaves any number of
callers of one key, `SapRaceCalls` says exactly when they keep count of their calls, and `SapRaceAlone`
ties a caller that is not interleaved to the gateway.

**Repair orders.** `RepairOrders` holds the aggregate with its twenty statuses and twenty-seven operations:
a class whose methods assign fields in the source's order of checks, each proved equal to a table of guards
and effects. `RepairOrderLaws` proves what every run of operations keeps, `RepairOrderHistory` what the
operations of a run mean: what ends an order, what can still be reached, and where each recorded fact comes
from. `RepairOrderStore` is the header row with its two child tables.

**Fault workflow.** `Fleet` holds faults and vehicles, `Workflow` the services as functions on the stored
world (faults, vehicles, orders, SAP table), `WorkflowServices` the services themselves, which change
loaded copies and save them one by one, and are proved equal to those functions. A service that raises
half-way leaves what it has saved: no rollback is assumed. `WorkflowRuns` defines a run (the services,
interleaved with steps that stand for the rest of the system) and what it keeps; `WorkflowRequests` bounds
SAP requests; `WorkflowLaws` has the results about the services, and `WorkflowRounds` those about the SAP
requests and rows of a fault.

**Usernames.** `Usernames` is the migration that names every existing user, on an array column.

**Reads.** `Assignments` (current vehicles of drivers, items of faults), `CentralStock` (lookup by material
number) and `Inspections` (checklist review and score) are proved against single reads and direct definitions.

## Where the code and its documentation differ

The model follows the code in each case.

- `retry` documents only an exhaustion error for a row that cannot be retried. For a row that is not FAILED
  the transition to EXHAUSTED is refused and a `ValueError` escapes
  (`infrastructure/sap/transaction/sap_transaction_manager.py:151-184`): `RetryAnswers`.
- `mark_unusable` catches `SAPIntegrationError` only. An idempotency or exhaustion error escapes after the
  vehicle, fault and order have been saved: `UnusableIsAllOrNothing` holds all the same, and
  `WhenUnusableRaises` says exactly when it happens.
- A fault that is OPEN can have a SAP row under its replacement key: a rejection by transport reopens the
  fault (`apps/repair/application/services/approve_repair_order_service.py:153-202`) and the row stays.
  `ReopenedFaultHasRow` gives a run. `WhenAnOpenFaultGetsARow` gives the exact guard: transport rejects a
  CREATED order of a fault that is AWAITING_TRANSPORT and has a row; `NoRowWhileOpenIff` says that a run is
  free of such faults if and only if it has no such step. `RequestsAreAskingDecisions` counts the requests
  exactly; `AskedOncePerRound` bounds them by the rejections, and `TwoRequestsForOneFault` is a run with two.
- `complete` and `complete_after_transport_handover` are documented for one status each, and accept every
  status from which the table allows COMPLETED.
- The transition table lists ACCEPTED_BY_DRIVER and has no arrow to REJECTED_BY_TRANSPORT. No operation
  reaches the first, and the rejection by transport enters the second without the table.
- Two resumes of one FAILED row that overlap are not serialized: `OverlappingResumesUndercount` gives an
  interleaving with three adapter calls of which the row counts two. `CallsAreCountedIffSerialized` gives the
  exact condition: no caller loads a FAILED row with budget left while another is sending it again.
- A score of 100.00 does not mean that nothing failed: with 20,000 applicable items one failure rounds away.
  `FullScore` gives the exact condition.

## Model

| member | source | states |
|---|---|---|
| SapTransactions.SapTransaction.Succeed | apps/integration/domain/entities.py:133-150 | Only an IN_PROGRESS transaction succeeds; it records the pair and the time and drops the error; refused, it changes nothing. |
| SapTransactions.SapTransaction.Fail | apps/integration/domain/entities.py:152-159 | Only an IN_PROGRESS transaction fails, with its message. |
| SapTransactions.SapTransaction.PrepareRetry | apps/integration/domain/entities.py:161-172 | A spent budget is reported before a wrong status; otherwise one retry is counted. |
| SapTransactions.SapTransaction.MarkExhausted | apps/integration/domain/entities.py:174-181 | Only FAILED and RETRYING can be exhausted. |
| SapTransactions.SavedAndLoaded | apps/integration/infrastructure/repositories.py:30-47 | A saved and loaded transaction differs only in empty texts, and saving it again changes nothing. |
| SapGateway.SapTransactionRepository.ListPendingForRetry | apps/integration/infrastructure/repositories.py:72-78 | Lists exactly the FAILED rows with fewer than three retries, each once, as a copy. |
| SapGateway.SapTransactionRepository.Save | apps/integration/infrastructure/repositories.py:97-132 | Writes one row, also under a changed key, unless another row has that key. |
| SapGateway.SaveKeepsIndex | apps/integration/infrastructure/models.py:141-146 | A save that the unique constraint lets through keeps keys and rows in one-to-one correspondence. |
| SapGateway.SapTransactionManager.Execute | infrastructure/sap/transaction/sap_transaction_manager.py:111-127 | The mutating execute leaves the table and the answer that the value-level function gives. |
| SapGateway.SapTransactionManager.Retry | infrastructure/sap/transaction/sap_transaction_manager.py:151-184 | The same for a retry by identifier. |
| SapGateway.SapTransactionManager.RetryAllPending | infrastructure/sap/transaction/sap_transaction_manager.py:198-225 | The same for a sweep, for the order in which the table lists its rows. |
| SapGateway.SapTransactionManager.HandleExisting | infrastructure/sap/transaction/sap_transaction_manager.py:240-287 | The same for a key that has a row, in each of the six statuses. |
| SapGateway.SapTransactionManager.CreateAndStart | infrastructure/sap/transaction/sap_transaction_manager.py:297-321 | A new key is saved as PENDING and then as IN_PROGRESS. |
| SapGateway.SapTransactionManager.Invoke | infrastructure/sap/transaction/sap_transaction_manager.py:335-369 | One adapter call, preceded by a save when retrying and followed by a save of what was answered. |
| SapGatewayLaws.SendingWritesOneRow | infrastructure/sap/transaction/sap_transaction_manager.py:297-369 | All the saves around one adapter call together replace one row and touch nothing else. |
| SapGatewayRuns.RunIsAtRest | infrastructure/sap/transaction/sap_transaction_manager.py:111-369 | After every run each row is as its newest adapter answer left it, with one call per attempt and the default budget. |
| SapGatewayRuns.CallsFollowTheBudget | infrastructure/sap/transaction/sap_transaction_manager.py:240-287 | In every run a key's adapter calls are retry_count + 1, at most four, all but the newest refused, and the newest successful exactly in SUCCESS. |
| SapGatewayRuns.StatusesFollowTheTable | apps/integration/domain/entities.py:66-79 | In every run the saved statuses of a row are a path in the table from PENDING, although the manager assigns IN_PROGRESS itself; completion time exactly in terminal statuses, response and document only on success. |
| SapGatewayRuns.NothingAfterSuccess | infrastructure/sap/transaction/sap_transaction_manager.py:240-270 | Once a row rests in a status other than FAILED, no continuation of the run calls the adapter for it or changes it. |
| SapGatewayRuns.SuccessIsReplayed | infrastructure/sap/transaction/sap_transaction_manager.py:240-249 | An execute on a succeeded key returns the very pair of its one successful adapter call, whatever it asks for now, and changes nothing. |
| SapGatewayRuns.ExecuteAnswers | infrastructure/sap/transaction/sap_transaction_manager.py:111-127 | In every run an execute on a known key answers from the row's status, and resends with the new payload exactly when FAILED with budget left; on a new key it makes the first call. The row after a call is given column by column, and the call is logged. |
| SapGatewayRuns.RetryAnswers | infrastructure/sap/transaction/sap_transaction_manager.py:151-184 | In every run a retry resends the stored request and records the answer column by column, or exhausts a spent row, or is refused, by status alone; no other row changes. |
| SapSweepLaws.SweepIsRowwise | infrastructure/sap/transaction/sap_transaction_manager.py:198-225 | For all adapters a sweep works through its listing up to the first crash; it raises if and only if some listed row's retry crashes, and otherwise does to each row what a retry of that row alone does. |
| SapSweepLaws.SweepInRun | infrastructure/sap/transaction/sap_transaction_manager.py:198-225 | In every run and for all adapters each row the sweep gets to, of a registered type, is called once more, counts one retry and rests in SUCCESS or FAILED (IN_PROGRESS if it crashed); other rows are untouched. |
| SapSweepLaws.CompletedSweepRetriesWhatIsDue | infrastructure/sap/transaction/sap_transaction_manager.py:198-225 | In every run a sweep that ends without raising makes exactly one call and counts one retry for each FAILED row with fewer than three retries and a registered type, records its answer, and leaves every other row equal. |
| SapSweepLaws.SweepsRaiseFloor | infrastructure/sap/transaction/sap_transaction_manager.py:198-225 | After sweeps with all types registered, n of which end without raising, whatever is still listed has been retried at least n times. |
| SapSweepLaws.ThreeSweepsFinish | infrastructure/sap/transaction/sap_transaction_manager.py:198-225 | After three sweeps that end without raising, whatever others were cut short in between, every row is not FAILED or has used its three retries. |
| SapRace.CreationIsExclusive | infrastructure/sap/transaction/sap_transaction_manager.py:297-321 | In every interleaving of any number of callers at most one passes the first insert, and only it calls the adapter from the creation branch, once. |
| SapRace.RowHasAnInserter | apps/integration/infrastructure/models.py:141-146 | A fresh key's row exists only when some caller's insert went through. |
| SapRace.OverlappingResumesUndercount | infrastructure/sap/transaction/sap_transaction_manager.py:274-287 | An interleaving of two resumes in which three adapter calls are made and one retry is recorded. |
| SapRaceCalls.CallsAreCountedIffSerialized | infrastructure/sap/transaction/sap_transaction_manager.py:240-287 | In every interleaving, once nobody is under way, the calls made equal retry_count + 1 if and only if no caller loaded a retryable row while another was sending it again; otherwise there were more. |
| SapRaceCalls.AccountedForIffSerialized | infrastructure/sap/transaction/sap_transaction_manager.py:335-369 | The same at every moment, also with callers that stopped half-way: some stored or held copy accounts for all calls made and owed. |
| SapRaceAlone.AloneIsExecute | infrastructure/sap/transaction/sap_transaction_manager.py:111-127 | A caller that takes its turns alone leaves the row, and gets the answer, that the gateway's execute gives. |
| RepairOrders.AmendsTheFirstActivity | apps/repair/domain/entities.py:586-602 | An update changes the first activity of that identifier and nothing else. |
| RepairOrders.AmendsTheFirstPart | apps/repair/domain/entities.py:626-638 | An update changes the first part of that identifier and nothing else. |
| RepairOrders.RemovalIsItemwise | apps/repair/domain/entities.py:604-646 | A deletion removes every entry of that identifier and keeps the others in order. |
| RepairOrders.WhereRepairsCome | apps/repair/domain/entities.py:74-173 | The order table read backwards, up to the work; `WhereRepairsEnd` has the rest. |
| RepairOrders.RepairOrder.AssignTechnician | apps/repair/domain/entities.py:315-330 | Succeeds in CREATED and WORKSHOP_ASSIGNED only. |
| RepairOrders.RepairOrder.Approve | apps/repair/domain/entities.py:332-340 | Approves CREATED; when refused, the note stays written. |
| RepairOrders.RepairOrder.AssignWorkshop | apps/repair/domain/entities.py:352-387 | Sets the workshop once, on APPROVED, and branches on its type. |
| RepairOrders.RepairOrder.AssignExternalWorkshop | apps/repair/domain/entities.py:389-401 | Sets an external workshop on APPROVED or WAITING_DELIVERY. |
| RepairOrders.RepairOrder.ConfirmExternalPickup | apps/repair/domain/entities.py:421-430 | Passes through WAITING_PICKUP when called in EXTERNAL_IN_PROGRESS. |
| RepairOrders.RepairOrder.StartWork | apps/repair/domain/entities.py:489-512 | Starts work from three statuses, never on an external order. |
| RepairOrders.RepairOrder.CompleteWaitingDriver | apps/repair/domain/entities.py:526-537 | Records the time and waits for the driver; WORKSHOP_ASSIGNED only when external. |
| RepairOrders.RepairOrder.UpdateActivity | apps/repair/domain/entities.py:586-602 | The search loop amends exactly the first match, and raises exactly when there is none or the order is frozen. |
| RepairOrders.RepairOrder.UpdatePart | apps/repair/domain/entities.py:626-638 | The same for parts. |
| RepairOrders.RepairOrder.DeleteActivity | apps/repair/domain/entities.py:604-612 | Raises exactly when nothing would be removed or the order is frozen. |
| RepairOrderLaws.OperationsFollowTheTable | apps/repair/domain/entities.py:74-173 | Every status an operation enters is allowed by the table, except for the rejection by transport, which never is. |
| RepairOrderLaws.RunIsConsistent | apps/repair/domain/entities.py:315-572 | In every run from creation status and workshop type agree, finished work has a completion time, an assigned order a technician, ACCEPTED_BY_DRIVER is never reached, and identity fields never change. |
| RepairOrderLaws.WorkshopTypeIsWrittenOnce | apps/repair/domain/entities.py:352-401 | Once set in a run, the workshop type never changes. |
| RepairOrderLaws.RunsAreBounded | apps/repair/domain/entities.py:74-173 | A run with k waits for parts makes at most 7 + 2k status changes. |
| RepairOrderLaws.BoundIsReached | apps/repair/domain/entities.py:442-564 | For every k some run makes exactly that many. |
| RepairOrderLaws.EveryRunCanEnd | apps/repair/domain/entities.py:192-200 | Every reachable active order is ended by one operation, a refusal by the driver or a cancellation; an ended one never moves. |
| RepairOrderLaws.LeftMutableForGood | apps/repair/domain/entities.py:175-190 | An order that left the mutable statuses never returns, even under forced transitions, and its lists, technician, workshop and labor hours are frozen. |
| RepairOrderLaws.RaisingChangesNothing | apps/repair/domain/entities.py:282-572 | An operation that raises changes nothing, if and only if it is not an approval with a new note. |
| RepairOrderHistory.EndedExactlyBy | apps/repair/domain/entities.py:315-572 | In every run an operation ends an active order if and only if it succeeds and is a rejection by transport, a close of an external repair, a completion, a no-repair decision, a refused handover or a cancellation. |
| RepairOrderHistory.WorkIsUnderWay | apps/repair/domain/entities.py:450-552 | After a repairable decision, a start or a resumption succeeds, waiting for parts and completing are possible. |
| RepairOrderHistory.MutableUntilHandover | apps/repair/domain/entities.py:175-190 | An order is mutable exactly while it is active and not handed over. |
| RepairOrderHistory.EveryRunCanComplete | apps/repair/domain/entities.py:315-572 | Every active order that a run reaches can be brought to COMPLETED by operations that all succeed. |
| RepairOrderHistory.WhatIsReached | apps/repair/domain/entities.py:74-173 | Some run reaches a status if and only if it is not ACCEPTED_BY_DRIVER. |
| RepairOrderHistory.WorkComesFirst | apps/repair/domain/entities.py:489-552 | In every run an order that is not external is handed over, completed or refused by the driver only after it was IN_PROGRESS. |
| RepairOrderHistory.RecordedFactsHaveASource | apps/repair/domain/entities.py:315-655 | In every run completion time, technician, workshop, rejection reason, decision note and SAP number are what the newest successful operation that carries them said, and the approval note the newest one given. |
| RepairOrderHistory.ListsChangeByTheirOperations | apps/repair/domain/entities.py:574-646 | Only the operations on a list change it, and additions go to its end. |
| RepairOrderHistory.LaborIsTheSum | apps/repair/domain/entities.py:656-659 | The total counts the hours of every activity once, from zero. |
| RepairOrderStore.RepairOrderRepository.Save | apps/repair/infrastructure/repositories.py:219-286 | Writes header and children together, or nothing when two children of a list share an identifier. |
| RepairOrderStore.RepairOrderRepository.GetById | apps/repair/infrastructure/repositories.py:53-155 | Loads exactly the stored rows, in some order; a soft-deleted order is not found. |
| RepairOrderStore.ColumnsOfSaved | apps/repair/infrastructure/repositories.py:219-286 | Every column of a saved header holds the field it is named after; creation time and deletion mark stay as first stored. |
| RepairOrderStore.OtherOrdersUntouched | apps/repair/infrastructure/repositories.py:219-295 | No sequence of saves and deletions of other orders changes an order's rows. |
| RepairOrderStore.SavedIsLoaded | apps/repair/infrastructure/repositories.py:219-286 | Loading after saving returns the order, up to empty texts, list order and the creation time first stored. |
| RepairOrderStore.LastSaveIsLoaded | apps/repair/infrastructure/repositories.py:219-295 | The same for the last save of an order in any history of writes; it is found unless it was soft-deleted. |
| RepairOrderStore.LaborSurvives | apps/repair/domain/entities.py:656-659 | The labor total is the same after saving and loading. |
| Fleet.Fault.TransitionTo | apps/fault/domain/entities.py:129-147 | A closed fault is reported as such; other moves follow the table. |
| Fleet.FaultReachability | apps/fault/domain/entities.py:43-58 | The fault table read backwards. |
| Fleet.VehicleReachability | apps/vehicle/domain/entities.py:58-147 | The vehicle table read backwards: from where each status can be entered. |
| WorkflowServices.CloseFaultService.Execute | apps/fault/application/services/close_fault_service.py:98-123 | The service leaves the world the value-level function gives, and reports how many of the fault's orders were CREATED, APPROVED or awaiting final approval. What that world is: `ClosingDecidesOrders`. |
| WorkflowServices.CloseFaultService.ReleaseOrdersOf | apps/fault/application/services/close_fault_service.py:125-164 | The loop changes exactly the fault's undecided orders and returns how many there were. |
| WorkflowServices.DistributionFaultDecisionService.MarkUsable | apps/fault/application/services/distribution_fault_decision_service.py:63-104 | The service equals the value-level function, saves and early exits included. |
| WorkflowServices.DistributionFaultDecisionService.MarkUnusable | apps/fault/application/services/distribution_fault_decision_service.py:106-168 | The same, with the gateway call at the end. |
| WorkflowServices.DistributionFaultDecisionService.EnsureRepairOrder | apps/fault/application/services/distribution_fault_decision_service.py:180-212 | The search loop creates an order exactly when no order keeps the fault busy. |
| WorkflowServices.DistributionFaultDecisionService.RequestReplacement | apps/fault/application/services/distribution_fault_decision_service.py:214-277 | One execute under the fault's key, or none without adapter or driver; faults, vehicles and orders stay as they are. |
| WorkflowServices.RejectRepairOrderByTransportService.Execute | apps/repair/application/services/approve_repair_order_service.py:153-202 | The rejection ends the order, reopens a waiting fault and reactivates the vehicle. |
| WorkflowServices.AssignFaultService.Execute | apps/fault/application/services/assign_fault_service.py:66-87 | The service takes the assignment step of the workflow runs, and is refused as the fault's table says. |
| WorkflowServices.FaultAfterRepair.Close | apps/repair/application/services/transport_handover_decision_service.py:51-88 | A fault that exists is always closed, by the two fault steps of the workflow runs; nothing else changes. |
| WorkflowServices.DriverExitCenterService.Execute | apps/driver/application/services/exit_center_service.py:86-165 | The guards in their order, then the one save. |
| WorkflowRuns.RunIsSound | apps/fault/application/services/distribution_fault_decision_service.py:106-212 | In every run orders, faults and vehicles stay linked, a fault has at most one live order and none while OPEN, and no vehicle with a confirmed fault has left. |
| WorkflowLaws.WhereTheNotionsDiffer | core/workflow/vehicle_open_flow.py:26-40 | The guard's sets and the query's set, declared apart, agree; entity and query differ about ACCEPTED_BY_DRIVER only, entity and distribution about NO_REPAIR_NEEDED only. |
| WorkflowLaws.OpenOrderNotionsAgree | apps/repair/infrastructure/repositories.py:43-50 | On every order that operations reach, is_active, the guard's set and the query agree. |
| WorkflowLaws.ReleaseIsAllowed | apps/fault/application/services/close_fault_service.py:125-164 | The loop never raises: each order it changes takes an allowed operation, keeps a completion time it has, and nothing undecided is left. |
| WorkflowLaws.ClosingDecidesOrders | apps/fault/application/services/close_fault_service.py:98-164 | In any world closing is refused for a missing, closed or assigned fault; otherwise orders awaiting final approval become COMPLETED at their own time or now, CREATED and APPROVED ones CANCELLED, and all else is as before. |
| WorkflowLaws.ClosingKeepsCompletionTimes | apps/fault/application/services/close_fault_service.py:125-164 | In every run closing a fault changes no order's completion time. |
| WorkflowLaws.UsableIsAllOrNothing | apps/fault/application/services/distribution_fault_decision_service.py:63-104 | In every run marking usable changes nothing, or closes the fault with its note, decides its orders and makes the vehicle ACTIVE, raising exactly when the vehicle was DECOMMISSIONED; nothing else changes. |
| WorkflowLaws.UnusableIsAllOrNothing | apps/fault/application/services/distribution_fault_decision_service.py:106-168 | In every run marking unusable changes nothing, or leaves vehicle OUT_OF_SERVICE, fault AWAITING_TRANSPORT with its note and exactly one live order, a blank one, even when it raises. |
| WorkflowLaws.QueuesUnlessBusy | apps/fault/application/services/distribution_fault_decision_service.py:180-212 | In any world an accepted decision adds a blank order exactly when every order of the fault is over. |
| WorkflowLaws.WhenUnusableRaises | apps/fault/application/services/distribution_fault_decision_service.py:214-277 | An accepted decision raises exactly when SAP is asked and the key is blocked or spent, or the adapter fails otherwise. |
| WorkflowLaws.AskedOncePerRound | apps/fault/application/services/distribution_fault_decision_service.py:260-268 | In every run the requests for a fault are at most its rejected orders plus one while it is not OPEN; an OPEN fault that was never rejected has no SAP row. The exact count is `RequestsAreAskingDecisions`. |
| WorkflowLaws.OneReplacementPerFault | infrastructure/sap/transaction/sap_transaction_manager.py:240-287 | In every run the adapter is called at most four times for a fault's replacement and grants at most one. |
| WorkflowLaws.ConfirmedVehicleStays | apps/driver/application/services/exit_center_service.py:102-152 | From an accepted unusable decision until the fault is closed, no run moves the vehicle to EXITED_CENTER. |
| WorkflowLaws.WhenAVehicleLeaves | core/workflow/vehicle_open_flow.py:49-82 | An exit succeeds exactly for an assigned driver, a submitted checklist of this vehicle, an ACTIVE vehicle and no open fault or order; nothing but the status changes. |
| WorkflowLaws.RejectionSendsBack | apps/repair/application/services/approve_repair_order_service.py:153-202 | In every run a rejection is refused unless the order is CREATED; otherwise order, fault and vehicle are given field by field. |
| WorkflowLaws.OneOpenFaultPerVehicle | apps/fault/application/services/report_fault_service.py:144-205 | In every run a vehicle has at most one fault that is not closed. |
| WorkflowLaws.WhatAReportAdds | apps/fault/application/services/report_fault_service.py:144-205 | A fault is added, OPEN, exactly for a vehicle that exists and has neither an open fault nor an open order. |
| WorkflowLaws.RejectionUndoesDecision | apps/repair/application/services/approve_repair_order_service.py:153-202 | Rejecting a decision's order restores the fault to OPEN and the vehicle to ACTIVE, without a live order. |
| WorkflowLaws.RejectionKeepsTheRow | apps/repair/application/services/approve_repair_order_service.py:153-202 | A decision that asks, rejected at once, leaves the fault OPEN with its row; the condition for every step of every run is `WhenAnOpenFaultGetsARow`. |
| WorkflowLaws.ReopenedFaultHasRow | apps/repair/application/services/approve_repair_order_service.py:153-202 | A run reaches an OPEN fault with a SAP row. |
| WorkflowRounds.WhatSapIsSent | apps/fault/application/services/distribution_fault_decision_service.py:147-268 | In every run an accepted decision with an adapter and a driver, on a key without a row or FAILED with budget left, logs one more call whose request names, field by field, fault, driver, vehicle, time, request and reason; a new row has its type, object and key. Otherwise SAP's table is unchanged. |
| WorkflowRounds.RowsAreRequests | apps/fault/application/services/distribution_fault_decision_service.py:260-268 | In every run a fault has a row under its replacement key if and only if SAP was asked for it. |
| WorkflowRounds.RequestsAreAskingDecisions | apps/fault/application/services/distribution_fault_decision_service.py:214-277 | In every run SAP was asked for a fault exactly as often as a decision on it was accepted with an adapter and a driver. |
| WorkflowRounds.TwoRequestsForOneFault | apps/fault/application/services/distribution_fault_decision_service.py:214-277 | A run in which one fault is asked for twice. |
| WorkflowRounds.WhenAnOpenFaultGetsARow | apps/repair/application/services/approve_repair_order_service.py:153-202 | In every run a step leaves a fault newly OPEN with a row if and only if it is the rejection of a CREATED order of that fault while it is AWAITING_TRANSPORT and has a row. |
| WorkflowRounds.NoRowWhileOpenIff | apps/repair/application/services/approve_repair_order_service.py:153-202 | A fault is without a row whenever it is OPEN, throughout a run, if and only if the run has no such rejection. |
| WorkflowRounds.LaterRoundIsReplayed | infrastructure/sap/transaction/sap_transaction_manager.py:240-287 | A decision on a fault whose row is not FAILED with budget left leaves SAP's table as it is, and is answered normally exactly when a replacement was granted. |
| Usernames.LocalPartIs | apps/authentication/infrastructure/migrations/0002_add_username.py:12 | The local part is what stands before the first @, or all of an address without one. |
| Usernames.BaseIs | apps/authentication/infrastructure/migrations/0002_add_username.py:12-13 | The base is the trimmed local part cut to 140 characters, or "user" when that is empty. |
| Text.StripTrims | apps/authentication/infrastructure/migrations/0002_add_username.py:12 | Trimming removes exactly the spaces around a text. |
| Usernames.DecimalIsInjective | apps/authentication/infrastructure/migrations/0002_add_username.py:15-20 | Different counters are written differently. |
| Usernames.CandidatesDiffer | apps/authentication/infrastructure/migrations/0002_add_username.py:11-20 | The names tried for one user differ from each other, ignoring case, despite truncation. |
| Usernames.CandidateFits | apps/authentication/infrastructure/migrations/0002_add_username.py:11-20 | A name is never empty and at most 150 characters while its counter has at most 149 digits. |
| Usernames.TableAddsNothing | apps/authentication/infrastructure/migrations/0002_add_username.py:16-17 | The lookup in the table is redundant: what it finds is among the used names. |
| Usernames.NamedFollowsAddress | apps/authentication/infrastructure/migrations/0002_add_username.py:11-20 | A backfilled name is the base when free, and otherwise the base with the smallest free number in decimal digits. |
| Usernames.FindFree | apps/authentication/infrastructure/migrations/0002_add_username.py:11-20 | The inner loop ends with the first free candidate, after at most as many attempts as there are used names. |
| Usernames.PopulateUsernames | apps/authentication/infrastructure/migrations/0002_add_username.py:8-23 | Starting from an empty column every user gets the trimmed local part of the address, cut to 140 characters, or "user", when no earlier row has it ignoring case, and otherwise what fits of it with a hyphen and the first number that makes it free; names are non-empty, fit the column, and all differ ignoring case. |
| Assignments.NewestIsTheFirst | apps/driver/infrastructure/vehicle_assignment_reader.py:28-60 | The single read gives the first serving row, newest first, or nothing when no row serves. |
| Assignments.NewestByColumn | apps/driver/infrastructure/vehicle_assignment_reader.py:28-60 | Drivers are found by the first customer column and assistants by the second: the first live row that has the number, with its identifier, number and plate. |
| Assignments.VehiclesByCustomers | apps/driver/infrastructure/vehicle_assignment_reader.py:28-60 | The one-pass batch gives, for every number asked, what the single read gives, and nothing else; duplicates are matches minus keys. |
| Assignments.BatchAgreesWithSingle | apps/driver/infrastructure/vehicle_assignment_reader.py:28-60 | What is read for one number does not depend on the others asked for. |
| Assignments.GetDriver | apps/driver/application/services/get_driver_service.py:170-180 | One driver is shown with the first live row whose first column has the number, and as assistant by the second column. |
| Assignments.ListDrivers | apps/driver/application/services/get_driver_service.py:257-271 | A list shows each driver as the single read does, and the role filter keeps order. |
| Assignments.ListedExactly | apps/driver/application/services/get_driver_service.py:320-329 | A view is listed if and only if it is the single read of a listed driver that has the role. |
| Assignments.ItemsAreTheLiveRows | apps/fault/infrastructure/repositories.py:123-136 | A fault's items are exactly its rows that are not deleted, in table order. |
| Assignments.LoadItemsForFaults | apps/fault/infrastructure/repositories.py:97-136 | Batch-loaded items of every fault are those it would get alone, in the same order; every fault asked for has an entry. |
| CentralStock.LookupIsRowwise | apps/material/infrastructure/stock_repositories.py:80-115 | Nothing is available in an empty table; each row is found on its own merits and adds its quantity exactly when found and of stock type 01. |
| CentralStock.FoundExactly | apps/material/infrastructure/stock_repositories.py:43-115 | Which live rows a number finds, whatever zeros and spaces surround it: by short code, by that spelling, or by a material that ends in it. |
| CentralStock.ZeroIsFoundAsZero | apps/material/infrastructure/stock_repositories.py:43-47 | A number of zeros only, or an empty one, is looked up as "0". |
| CentralStock.MatchesByShortNumber | apps/material/infrastructure/stock_repositories.py:43-47 | The four-way filter is a filter on the short number, plus rows whose short code repeats the padded spelling. |
| CentralStock.SpellingsAgree | apps/material/infrastructure/stock_repositories.py:100-115 | Two spellings find a row alike if and only if neither or both find it by spelling only. |
| CentralStock.SameRows | apps/material/infrastructure/stock_repositories.py:100-115 | With stored short codes free of leading zeros, numbers with the same short form find the same rows in the same order. |
| CentralStock.SpellingDoesNotMatter | apps/material/infrastructure/stock_repositories.py:80-115 | With stored short codes free of leading zeros, zeros in front and spaces around change neither rows nor quantity. |
| Inspections.Inspection.Submit | apps/inspection/domain/entities.py:164-173 | A missing checklist is reported before a wrong status; otherwise DRAFT becomes SUBMITTED. |
| Inspections.Inspection.Approve | apps/inspection/domain/entities.py:175-187 | Only SUBMITTED is approved, and only then are reviewer and notes written. |
| Inspections.Inspection.Reopen | apps/inspection/domain/entities.py:203-211 | Only REJECTED is reopened, which clears reviewer and notes. |
| Inspections.RunIsConsistent | apps/inspection/domain/entities.py:134-211 | In every run an inspection past DRAFT has items, and a reviewer is recorded exactly in APPROVED and REJECTED. |
| Inspections.SheetHasASource | apps/inspection/domain/entities.py:134-211 | In every run the checklist is what was added, and a standing decision is the newest one with its reviewer and notes. |
| Inspections.RejectedThenApproved | apps/inspection/domain/entities.py:58-65 | A whole life, for all items and reviewers: submitted, rejected, reopened, completed, submitted and approved. |
| Inspections.ItemsOnlyGrow | apps/inspection/domain/entities.py:151-162 | No run removes or alters an item, and an approved inspection never changes. |
| Inspections.ChecklistIsFrozenUntilReopened | apps/inspection/domain/entities.py:58-65 | Until it is reopened, an inspection that left DRAFT keeps its items and its score. |
| Inspections.RoundHalfEvenIsNearest | apps/inspection/domain/value_objects.py:99-116 | The rounded value is the one nearest to the fraction, even at a tie. |
| Inspections.ComputeIsMonotone | apps/inspection/domain/value_objects.py:92-116 | A better ratio of passes never scores lower, and construction never raises. |
| Inspections.CountsArePositions | apps/inspection/domain/entities.py:213-233 | Passes and failures are counted once for each position in the list. |
| Inspections.PassedOrFailed | apps/inspection/domain/entities.py:213-233 | Applicable items are the passes and the failures; has_failures means that failed_items is not empty. |
| Inspections.ScoreIsThePercentage | apps/inspection/domain/entities.py:213-224 | The score is the percentage of passes among passes and failures, to the nearest hundredth, an even one at a tie, in both directions. |
| Inspections.ScoreIsInRange | apps/inspection/domain/entities.py:213-224 | The score is absent exactly when nothing applies, and otherwise within 0 to 100. |
| Inspections.FullScore | apps/inspection/domain/value_objects.py:99-116 | 100.00 is reached if and only if at most one in 20,000 applicable items failed, 0.00 if and only if at most one passed. |
| Inspections.FailuresShow | apps/inspection/domain/entities.py:213-229 | With fewer than 20,000 applicable items the score is 100.00 if and only if nothing failed. |
| Inspections.PassingNeverHurts | apps/inspection/domain/entities.py:213-224 | Turning any item into a pass never lowers a score. |

## Left out

- The OData and BAPI clients, DTOs, Django models, settings, Celery wiring, the REST layer and the frontend: transport and configuration.
- Identifier generation and clocks: identifiers are fresh parameters and times arbitrary ones; the `created_at` and `updated_at` columns of transactions are not modelled, and one call reads the clock once.
- Timeline events, logging and the response DTOs of the services.
- The order in which the tables list rows for a sweep, for a fault's orders and for an order's children: the results hold for every order.
- Services that are not modelled (handover, external workshop, technical decisions, purchase receipts) appear in workflow runs as steps that apply any repair order operation, move faults and vehicles along their tables (never to EXITED_CENTER), replace an ended order by a new one as `apps/handover/application/services/handover_service.py` and `apps/repair/application/services/transport_handover_decision_service.py` do, and use SAP under keys of their own.
- Soft deletion of faults, vehicles and orders in workflow runs; it is modelled for the repair order tables.
- The SAP notification that a reported fault triggers, its items and its severity.
- Database rollback of a failed request; only the transaction of a repair order save is modelled.
- Interleavings of calls for different keys, and of retries and sweeps with executes.
- Activities and parts are values; a caller that keeps a reference to one and changes it later is not modelled.
- Validation of quantities and hours when they are constructed, and decimal precision: hours and quantities are reals.
- `lower` is an arbitrary character map that fixes digits and the hyphen; `strip` trims ASCII spaces, tabs and line breaks.
- Binary floating point in the score: rounding is on the exact fraction.
- CandidateFits: the length bound needs fewer than 10^149 users; the counter of a later user would fill the column by itself.
- PopulateUsernames: what a name is made of is stated for the first 10^149 users, for the same reason.
- Small status tables (drivers, handovers, material requests, PM, invoices, referrals, procurement), which a reading of one table settles.
