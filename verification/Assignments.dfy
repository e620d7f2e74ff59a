/** Batch reads that must agree with reads of one record: current vehicles of drivers, and fault items. */
module Assignments {
  import opened Common

  type Id = string

  /** A vehicle row; the table is given newest first. */
  datatype VehicleRow = VehicleRow(id: Id, number: string, plate: string, driver1: Option<string>, driver2: Option<string>,
                                   isDeleted: bool)
  datatype AssignedVehicle = AssignedVehicle(id: Id, number: string, plate: string)

  datatype Role = AsDriver | AsAssistant

  function Shown(v: VehicleRow): AssignedVehicle {
    AssignedVehicle(v.id, v.number, v.plate)
  }

  function CustomerIn(v: VehicleRow, role: Role): string {
    OrEmpty(if role == AsDriver then v.driver1 else v.driver2)
  }

  predicate Serves(v: VehicleRow, role: Role, customer: string) {
    !v.isDeleted && customer != "" && CustomerIn(v, role) == customer
  }

  /** The newest vehicle that a customer has in a role. */
  function Newest(fleet: seq<VehicleRow>, role: Role, customer: string): Option<AssignedVehicle> {
    if fleet == [] then None
    else if Serves(fleet[0], role, customer) then Some(Shown(fleet[0]))
    else Newest(fleet[1..], role, customer)
  }

  function Matches(fleet: seq<VehicleRow>, role: Role, customers: set<string>): nat {
    if fleet == [] then 0 else
    Matches(fleet[..|fleet| - 1], role, customers)
    + if Serves(fleet[|fleet| - 1], role, CustomerIn(fleet[|fleet| - 1], role))
         && CustomerIn(fleet[|fleet| - 1], role) in customers then 1 else 0
  }

  /** The map holds, for each customer asked for, the newest vehicle, and nothing else. */
  ghost predicate IsIndex(m: map<string, AssignedVehicle>, fleet: seq<VehicleRow>, role: Role, customers: set<string>) {
    forall c :: if c in customers && Newest(fleet, role, c).Some? then c in m && m[c] == Newest(fleet, role, c).value
                else c !in m
  }

  /** The newest vehicle is the first row that serves; there is none when no row does. */
  lemma {:induction false} NewestIsTheFirst(fleet: seq<VehicleRow>, role: Role, customer: string)
    ensures Newest(fleet, role, customer) == None <==> forall i :: 0 <= i < |fleet| ==> !Serves(fleet[i], role, customer)
    ensures forall i :: 0 <= i < |fleet| && Serves(fleet[i], role, customer)
                        && (forall j :: 0 <= j < i ==> !Serves(fleet[j], role, customer))
              ==> Newest(fleet, role, customer) == Some(Shown(fleet[i]))
  {
    if fleet != [] {
      NewestIsTheFirst(fleet[1..], role, customer);
      assert forall i :: 0 < i < |fleet| ==> fleet[i] == fleet[1..][i - 1];
    }
  }

  /** The vehicle that a customer has by one of the columns, found by position. */
  ghost predicate IsNewestBy(fleet: seq<VehicleRow>, column: VehicleRow -> Option<string>, customer: string,
                             found: Option<AssignedVehicle>) {
    match found
    case None => customer == "" || forall i :: 0 <= i < |fleet| && !fleet[i].isDeleted ==> column(fleet[i]) != Some(customer)
    case Some(vehicle) =>
      customer != "" &&
      exists i :: && 0 <= i < |fleet| && !fleet[i].isDeleted && column(fleet[i]) == Some(customer)
                  && vehicle.id == fleet[i].id && vehicle.number == fleet[i].number && vehicle.plate == fleet[i].plate
                  && forall j :: 0 <= j < i && !fleet[j].isDeleted ==> column(fleet[j]) != Some(customer)
  }

  /** Drivers are looked up by the first column, assistants by the second. */
  lemma {:induction false} NewestByColumn(fleet: seq<VehicleRow>, customer: string)
    ensures IsNewestBy(fleet, (v: VehicleRow) => v.driver1, customer, Newest(fleet, AsDriver, customer))
    ensures IsNewestBy(fleet, (v: VehicleRow) => v.driver2, customer, Newest(fleet, AsAssistant, customer))
  {
    if fleet != [] {
      NewestByColumn(fleet[1..], customer);
      NewestGoesOn(fleet, (v: VehicleRow) => v.driver1, customer, Newest(fleet[1..], AsDriver, customer));
      NewestGoesOn(fleet, (v: VehicleRow) => v.driver2, customer, Newest(fleet[1..], AsAssistant, customer));
    }
  }

  lemma NewestGoesOn(fleet: seq<VehicleRow>, column: VehicleRow -> Option<string>, customer: string,
                     found: Option<AssignedVehicle>)
    requires fleet != [] && IsNewestBy(fleet[1..], column, customer, found)
    ensures var first := fleet[0];
            if customer != "" && !first.isDeleted && column(first) == Some(customer)
            then IsNewestBy(fleet, column, customer, Some(AssignedVehicle(first.id, first.number, first.plate)))
            else IsNewestBy(fleet, column, customer, found)
  {
    var first, rest := fleet[0], fleet[1..];
    assert forall i :: 0 < i < |fleet| ==> fleet[i] == rest[i - 1];
    if found.Some? && !(customer != "" && !first.isDeleted && column(first) == Some(customer)) {
      var i :| && 0 <= i < |rest| && !rest[i].isDeleted && column(rest[i]) == Some(customer)
               && found.value.id == rest[i].id && found.value.number == rest[i].number && found.value.plate == rest[i].plate
               && forall j :: 0 <= j < i && !rest[j].isDeleted ==> column(rest[j]) != Some(customer);
      assert fleet[i + 1] == rest[i];
      assert forall j :: 0 <= j < i + 1 && !fleet[j].isDeleted ==> column(fleet[j]) != Some(customer);
    }
  }

  lemma {:induction false} NewestOfLonger(fleet: seq<VehicleRow>, v: VehicleRow, role: Role, customer: string)
    ensures Newest(fleet + [v], role, customer)
         == if Newest(fleet, role, customer).Some? then Newest(fleet, role, customer)
            else if Serves(v, role, customer) then Some(Shown(v)) else None
  {
    if fleet == [] {
      assert fleet + [v] == [v];
    } else {
      assert (fleet + [v])[1..] == fleet[1..] + [v];
      NewestOfLonger(fleet[1..], v, role, customer);
    }
  }

  lemma IndexGrows(m: map<string, AssignedVehicle>, fleet: seq<VehicleRow>, v: VehicleRow, role: Role, customers: set<string>)
    requires IsIndex(m, fleet, role, customers)
    ensures var c := CustomerIn(v, role);
            IsIndex(if Serves(v, role, c) && c in customers && c !in m then m[c := Shown(v)] else m,
                    fleet + [v], role, customers)
    ensures Matches(fleet + [v], role, customers)
         == Matches(fleet, role, customers)
            + if Serves(v, role, CustomerIn(v, role)) && CustomerIn(v, role) in customers then 1 else 0
  {
    assert (fleet + [v])[..|fleet|] == fleet;
    forall c ensures Newest(fleet + [v], role, c)
         == if Newest(fleet, role, c).Some? then Newest(fleet, role, c)
            else if Serves(v, role, c) then Some(Shown(v)) else None {
      NewestOfLonger(fleet, v, role, c);
    }
  }

  /** Loads the current vehicles of several customers in one pass; the first match wins, later ones are
      logged as duplicates. */
  method VehiclesByCustomers(fleet: seq<VehicleRow>, customers: set<string>)
    returns (asDriver: map<string, AssignedVehicle>, asAssistant: map<string, AssignedVehicle>, duplicates: nat)
    ensures IsIndex(asDriver, fleet, AsDriver, customers) && IsIndex(asAssistant, fleet, AsAssistant, customers)
    ensures duplicates == Matches(fleet, AsDriver, customers) - |asDriver|
                          + Matches(fleet, AsAssistant, customers) - |asAssistant|
  {
    hide IsIndex, Matches, Newest;
    asDriver, asAssistant, duplicates := map[], map[], 0;
    EmptyIndex(AsDriver, customers);
    EmptyIndex(AsAssistant, customers);
    if customers == {} {
      NothingAsked(fleet, AsDriver);
      NothingAsked(fleet, AsAssistant);
      return;
    }
    var i := 0;
    while i < |fleet|
      invariant 0 <= i <= |fleet|
      invariant IsIndex(asDriver, fleet[..i], AsDriver, customers)
      invariant IsIndex(asAssistant, fleet[..i], AsAssistant, customers)
      invariant duplicates == Matches(fleet[..i], AsDriver, customers) - |asDriver|
                              + Matches(fleet[..i], AsAssistant, customers) - |asAssistant|
    {
      var v := fleet[i];
      IndexGrows(asDriver, fleet[..i], v, AsDriver, customers);
      IndexGrows(asAssistant, fleet[..i], v, AsAssistant, customers);
      assert fleet[..i] + [v] == fleet[..i + 1];
      if !v.isDeleted {
        var driver1, driver2 := OrEmpty(v.driver1), OrEmpty(v.driver2);
        if driver1 != "" && driver1 in customers {
          if driver1 in asDriver {
            duplicates := duplicates + 1;
          } else {
            asDriver := asDriver[driver1 := Shown(v)];
          }
        }
        if driver2 != "" && driver2 in customers {
          if driver2 in asAssistant {
            duplicates := duplicates + 1;
          } else {
            asAssistant := asAssistant[driver2 := Shown(v)];
          }
        }
      }
      i := i + 1;
    }
    assert fleet[..i] == fleet;
  }

  lemma EmptyIndex(role: Role, customers: set<string>)
    ensures IsIndex(map[], [], role, customers) && Matches([], role, customers) == 0
  {
  }

  lemma {:induction false} NothingAsked(fleet: seq<VehicleRow>, role: Role)
    ensures Matches(fleet, role, {}) == 0 && IsIndex(map[], fleet, role, {})
  {
    if fleet != [] {
      NothingAsked(fleet[..|fleet| - 1], role);
    }
  }

  /** What is read for one customer does not depend on which others are asked for. */
  lemma BatchAgreesWithSingle(fleet: seq<VehicleRow>, role: Role, customers: set<string>, c: string,
                              batch: map<string, AssignedVehicle>, single: map<string, AssignedVehicle>)
    requires IsIndex(batch, fleet, role, customers) && IsIndex(single, fleet, role, {c}) && c in customers
    ensures (c in batch <==> c in single) && (c in batch ==> batch[c] == single[c])
  {
    assert c in batch <==> Newest(fleet, role, c).Some?;
  }

  datatype Driver = Driver(id: Id, customer: string, name: string)
  datatype DriverView = DriverView(driver: Driver, vehicleAsDriver: Option<AssignedVehicle>,
                                   vehicleAsAssistant: Option<AssignedVehicle>)

  function Lookup(m: map<string, AssignedVehicle>, c: string): Option<AssignedVehicle> {
    if c in m then Some(m[c]) else None
  }

  function View(d: Driver, asDriver: map<string, AssignedVehicle>, asAssistant: map<string, AssignedVehicle>): DriverView {
    DriverView(d, Lookup(asDriver, d.customer), Lookup(asAssistant, d.customer))
  }

  predicate HasRole(v: DriverView, role: Option<Role>) {
    match role
    case None => true
    case Some(AsDriver) => v.vehicleAsDriver.Some?
    case Some(AsAssistant) => v.vehicleAsAssistant.Some?
  }

  /** One driver with the current vehicles. */
  method GetDriver(fleet: seq<VehicleRow>, d: Driver) returns (v: DriverView)
    ensures v == DriverView(d, Newest(fleet, AsDriver, d.customer), Newest(fleet, AsAssistant, d.customer))
    ensures IsNewestBy(fleet, (v: VehicleRow) => v.driver1, d.customer, v.vehicleAsDriver)
    ensures IsNewestBy(fleet, (v: VehicleRow) => v.driver2, d.customer, v.vehicleAsAssistant)
  {
    NewestByColumn(fleet, d.customer);
    var asDriver, asAssistant, _ := VehiclesByCustomers(fleet, {d.customer});
    v := View(d, asDriver, asAssistant);
  }

  function Views(fleet: seq<VehicleRow>, drivers: seq<Driver>, role: Option<Role>): seq<DriverView> {
    if drivers == [] then [] else
    var d := drivers[0];
    var v := DriverView(d, Newest(fleet, AsDriver, d.customer), Newest(fleet, AsAssistant, d.customer));
    (if HasRole(v, role) then [v] else []) + Views(fleet, drivers[1..], role)
  }

  /** A view is listed exactly when it is what one of the drivers would be shown alone, in the role asked for. */
  lemma {:induction false} ListedExactly(fleet: seq<VehicleRow>, drivers: seq<Driver>, role: Option<Role>, v: DriverView)
    ensures v in Views(fleet, drivers, role)
       <==> && v.driver in drivers
            && (role == Some(AsDriver) ==> v.vehicleAsDriver != None)
            && (role == Some(AsAssistant) ==> v.vehicleAsAssistant != None)
            && v.vehicleAsDriver == Newest(fleet, AsDriver, v.driver.customer)
            && v.vehicleAsAssistant == Newest(fleet, AsAssistant, v.driver.customer)
  {
    hide Newest;
    if drivers != [] {
      ListedExactly(fleet, drivers[1..], role, v);
      assert v.driver in drivers <==> v.driver == drivers[0] || v.driver in drivers[1..];
    }
  }

  function FilterViews(views: seq<DriverView>, role: Option<Role>): seq<DriverView> {
    if views == [] then []
    else (if HasRole(views[0], role) then [views[0]] else []) + FilterViews(views[1..], role)
  }

  /** A list of drivers: each is shown as it would be read alone, and a role filter keeps exactly those
      that have a vehicle in that role. */
  method ListDrivers(fleet: seq<VehicleRow>, drivers: seq<Driver>, role: Option<Role>) returns (views: seq<DriverView>)
    ensures views == Views(fleet, drivers, role)
  {
    var customers := set d | d in drivers :: d.customer;
    var asDriver, asAssistant, _ := VehiclesByCustomers(fleet, customers);
    var all := seq(|drivers|, i requires 0 <= i < |drivers| => View(drivers[i], asDriver, asAssistant));
    views := FilterViews(all, role);
    forall i | 0 <= i < |drivers|
      ensures all[i] == DriverView(drivers[i], Newest(fleet, AsDriver, drivers[i].customer),
                                   Newest(fleet, AsAssistant, drivers[i].customer)) {
      assert drivers[i] in drivers && drivers[i].customer in customers;
    }
    FilteredViews(fleet, drivers, all, role);
  }

  lemma {:induction false} FilteredViews(fleet: seq<VehicleRow>, drivers: seq<Driver>, all: seq<DriverView>, role: Option<Role>)
    requires |all| == |drivers|
    requires forall i :: 0 <= i < |drivers| ==>
               all[i] == DriverView(drivers[i], Newest(fleet, AsDriver, drivers[i].customer),
                                    Newest(fleet, AsAssistant, drivers[i].customer))
    ensures FilterViews(all, role) == Views(fleet, drivers, role)
  {
    if all != [] {
      FilteredViews(fleet, drivers[1..], all[1..], role);
    }
  }

  // ---------------------------------------------------------------- fault items

  datatype ItemRow = ItemRow(id: Id, faultId: Id, component: string, isDeleted: bool)

  /** The items of one fault, oldest first, as the table yields them. */
  function ItemsOf(rows: seq<ItemRow>, faultId: Id): seq<ItemRow> {
    if rows == [] then [] else
    var last := rows[|rows| - 1];
    ItemsOf(rows[..|rows| - 1], faultId) + if last.faultId == faultId && !last.isDeleted then [last] else []
  }

  /** A fault's items are its live rows, and they keep the order of the table. */
  lemma {:induction false} ItemsAreTheLiveRows(rows: seq<ItemRow>, more: seq<ItemRow>, faultId: Id, row: ItemRow)
    ensures row in ItemsOf(rows, faultId) <==> row in rows && row.faultId == faultId && !row.isDeleted
    ensures ItemsOf(rows + more, faultId) == ItemsOf(rows, faultId) + ItemsOf(more, faultId)
    decreases |rows| + |more|
  {
    if more != [] {
      var last := |more| - 1;
      ItemsAreTheLiveRows(rows, more[..last], faultId, row);
      assert (rows + more)[..|rows + more| - 1] == rows + more[..last];
    } else {
      assert rows + more == rows;
      if rows != [] {
        var last := |rows| - 1;
        ItemsAreTheLiveRows(rows[..last], [], faultId, row);
        assert rows == rows[..last] + [rows[last]];
      }
    }
  }

  /** Groups the items of several faults in one pass: every fault gets what it would get alone. */
  method LoadItemsForFaults(rows: seq<ItemRow>, faultIds: seq<Id>) returns (grouped: map<Id, seq<ItemRow>>)
    ensures forall f :: f in faultIds <==> f in grouped
    ensures forall f :: f in grouped ==> grouped[f] == ItemsOf(rows, f)
  {
    grouped := map f | f in faultIds :: [];
    var i := 0;
    while i < |rows|
      invariant 0 <= i <= |rows|
      invariant forall f :: f in faultIds <==> f in grouped
      invariant forall f :: f in grouped ==> grouped[f] == ItemsOf(rows[..i], f)
    {
      var row := rows[i];
      assert rows[..i + 1][..i] == rows[..i];
      if row.faultId in faultIds && !row.isDeleted {
        grouped := grouped[row.faultId := grouped[row.faultId] + [row]];
      }
      i := i + 1;
    }
    assert rows[..i] == rows;
  }
}
