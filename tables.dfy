/** The rows of the clinic's tables as the application reads and writes them.
    Dates are day numbers (the ordinal of `Calendar`); identifiers are strings
    except the inventory table's numeric row id. */
module Tables {
  import opened Common

  /** A row of `medicines`. */
  datatype Medicine = Medicine(
    id: string,
    genericName: string,
    unit: string,
    category: string,
    minStock: int,
    isActive: bool)

  /** A row of `inventory`: one lot of one medicine. */
  datatype InventoryRow = InventoryRow(
    id: int,
    medicineId: string,
    lotNo: string,
    mfgDate: int,
    expDate: int,
    qty: int)

  /** `action_type` of a ledger entry; the application itself writes only the first two. */
  datatype Action = Receive | Dispense | OtherAction(tag: string)

  /** A row of `transactions`; `createdAt` is filled in by the database. */
  datatype Transaction = Transaction(
    medicineId: string,
    action: Action,
    qtyChange: int,
    lotNo: string,
    userName: string,
    note: string,
    createdAt: int)

  /** A row of `profiles`. */
  datatype Profile = Profile(id: string, email: string, role: string, isApproved: bool)

  /** The medicine a left merge on `medicine_id` attaches to a row (ids are the
      table's primary key, so the first match is the only one). */
  function FindMedicine(meds: seq<Medicine>, id: string): (r: Option<Medicine>)
    ensures r.None? <==> forall m :: m in meds ==> m.id != id
    ensures r.Some? ==> r.value in meds && r.value.id == id
  {
    if meds == [] then None
    else if meds[0].id == id then Some(meds[0])
    else FindMedicine(meds[1..], id)
  }

  /** The `generic_name` cell a left merge produces: missing when no medicine matches. */
  function NameOf(meds: seq<Medicine>, id: string): Option<string> {
    match FindMedicine(meds, id)
    case Some(m) => Some(m.genericName)
    case None => None
  }

  /** `medicines ... .eq("is_active", True)` */
  function ActiveMedicines(meds: seq<Medicine>): seq<Medicine> {
    Filter(meds, (m: Medicine) => m.isActive)
  }
}
