/** The stock-keeping side of the clinic application: the available-stock view,
    the lots offered for dispensing, the dashboard figures, the role-gated menu,
    the login approval gate, and the two table updates (dispense one lot,
    receive one lot) with the ledger they keep. */
module Inventory {
  import opened Common
  import opened Tables
  import Sorting

  // ===========================================================================
  // Available-stock view

  /** An inventory row joined with its medicine's name and unit (missing when
      no medicine has the row's `medicine_id`). */
  datatype ViewRow = ViewRow(row: InventoryRow, genericName: Option<string>, unit: Option<string>)

  function Joined(r: InventoryRow, meds: seq<Medicine>): ViewRow {
    match FindMedicine(meds, r.medicineId)
    case Some(m) => ViewRow(r, Some(m.genericName), Some(m.unit))
    case None => ViewRow(r, None, None)
  }

  /** Left merge with the medicines, then keep the rows with positive quantity. */
  function JoinInStock(inv: seq<InventoryRow>, meds: seq<Medicine>): (v: seq<ViewRow>)
    ensures forall x :: x in v ==> x.row in inv && x.row.qty > 0 && x == Joined(x.row, meds)
    ensures forall r :: r in inv && r.qty > 0 ==> Joined(r, meds) in v
    ensures |v| <= |inv|
  {
    if inv == [] then []
    else
      var rest := JoinInStock(inv[1..], meds);
      assert forall r :: r in inv ==> r == inv[0] || r in inv[1..];
      if inv[0].qty > 0 then [Joined(inv[0], meds)] + rest else rest
  }

  /** `get_inventory_view`: nothing at all for an empty inventory table,
      otherwise the joined rows whose quantity is positive. None where the
      merge raises: an empty medicines table gives a frame without columns,
      so there is no `id` column to join on. */
  function InventoryView(inv: seq<InventoryRow>, meds: seq<Medicine>): (v: Option<seq<ViewRow>>)
    ensures v.None? <==> inv != [] && meds == []
    ensures v.Some? ==> forall x :: x in v.value ==> x.row in inv && x.row.qty > 0 && x == Joined(x.row, meds)
    ensures v.Some? ==> forall r :: r in inv && r.qty > 0 ==> Joined(r, meds) in v.value
    ensures v.Some? ==> (v.value == [] <==> forall r :: r in inv ==> r.qty <= 0)
  {
    if inv == [] then Some([])
    else if meds == [] then None
    else
      var v := JoinInStock(inv, meds);
      assert v != [] ==> v[0] in v;
      Some(v)
  }

  // ===========================================================================
  // Column names of the merged view

  /** The inventory table's columns, and the three `get_inventory_view` selects
      from the medicines table. */
  const InventoryColumns: seq<string> := ["id", "medicine_id", "lot_no", "mfg_date", "exp_date", "qty"]
  const ViewMedicineColumns: seq<string> := ["id", "generic_name", "unit"]

  /** A left column's name after `pd.merge(left, right, left_on=lk, right_on=rk)`:
      "_x" is appended when the right frame has a column of the same name,
      unless that name is the key on both sides. */
  function LeftName(c: string, right: seq<string>, lk: string, rk: string): string {
    if c in right && !(c == lk && lk == rk) then c + "_x" else c
  }

  /** The right frame's columns after the merge: a key shared by name appears
      once (from the left), other names both frames carry get "_y". */
  function RightNames(right: seq<string>, left: seq<string>, lk: string, rk: string): seq<string> {
    if right == [] then []
    else
      var c := right[0];
      (if c == rk && lk == rk then [] else if c in left then [c + "_y"] else [c])
        + RightNames(right[1..], left, lk, rk)
  }

  function MergedColumns(left: seq<string>, right: seq<string>, lk: string, rk: string): seq<string> {
    seq(|left|, i requires 0 <= i < |left| => LeftName(left[i], right, lk, rk)) + RightNames(right, left, lk, rk)
  }

  /** The columns of the frame `get_inventory_view` returns. */
  function ViewColumns(): seq<string> {
    MergedColumns(InventoryColumns, ViewMedicineColumns, "medicine_id", "id")
  }

  /** As written, the dispense form reads `row['id']` (lines 161 and 166), but
      both frames carry an `id` column and the join keys differ in name, so the
      merged frame has `id_x` (the inventory row's id) and `id_y` (the
      medicine's) and no `id`: every lot shown makes the page raise before its
      form is drawn. */
  lemma ViewHasNoIdColumn()
    ensures var cols := ViewColumns();
      && "id" !in cols
      && cols[0] == "id_x" && "id_y" in cols
      && "lot_no" in cols && "qty" in cols && "generic_name" in cols && "unit" in cols
  {
    var inv, meds := InventoryColumns, ViewMedicineColumns;
    assert "unit" !in inv && "generic_name" !in inv && "id" in inv;
    assert meds[1..] == ["generic_name", "unit"] && meds[1..][1..] == ["unit"] && meds[1..][1..][1..] == [];
    assert RightNames(["unit"], inv, "medicine_id", "id") == ["unit"];
    assert RightNames(["generic_name", "unit"], inv, "medicine_id", "id") == ["generic_name", "unit"];
    assert "id" + "_y" == "id_y" && "id" + "_x" == "id_x";
    var right := RightNames(meds, inv, "medicine_id", "id");
    assert right == ["id_y", "generic_name", "unit"];
    var left := seq(|inv|, i requires 0 <= i < |inv| => LeftName(inv[i], meds, "medicine_id", "id"));
    assert forall i :: 1 <= i < |inv| ==> inv[i] !in meds;
    assert left == ["id_x", "medicine_id", "lot_no", "mfg_date", "exp_date", "qty"];
    assert ViewColumns() == left + right;
  }

  // ===========================================================================
  // Lots offered for one drug, soonest expiry first

  function ExpiresNoLater(a: ViewRow, b: ViewRow): bool {
    a.row.expDate <= b.row.expDate
  }

  lemma ExpiryOrderIsTotal()
    ensures Sorting.TotalPreorder(ExpiresNoLater)
  {
  }

  /** `df_inv[df_inv['generic_name'] == drug_name].sort_values("exp_date")` */
  function LotsFor(view: seq<ViewRow>, drug: string): (lots: seq<ViewRow>)
    ensures forall i, j :: 0 <= i < j < |lots| ==> lots[i].row.expDate <= lots[j].row.expDate
    ensures forall x :: multiset(lots)[x] == if x.genericName == Some(drug) then multiset(view)[x] else 0
  {
    ExpiryOrderIsTotal();
    var chosen := Filter(view, (x: ViewRow) => x.genericName == Some(drug));
    FilterCounts(view, (x: ViewRow) => x.genericName == Some(drug));
    Sorting.SortBy(chosen, ExpiresNoLater)
  }

  // ===========================================================================
  // Dashboard

  /** The dashboard counts lots expiring within this many days as at risk. */
  const DashboardHorizon: int := 180

  datatype Metrics = Metrics(totalItems: nat, totalQty: int, nearExpiry: nat)

  /** `df_inv['generic_name'].nunique()`: distinct names, missing ones not counted. */
  function Names(view: seq<ViewRow>): set<string> {
    set x | x in view && x.genericName.Some? :: x.genericName.value
  }

  function TotalQty(view: seq<ViewRow>): int {
    if view == [] then 0 else view[0].row.qty + TotalQty(view[1..])
  }

  function NearExpiry(view: seq<ViewRow>, today: int, horizon: int): seq<ViewRow> {
    Filter(view, (x: ViewRow) => x.row.expDate <= today + horizon)
  }

  /** The three dashboard metrics; None where the page shows "inventory empty". */
  function Dashboard(view: seq<ViewRow>, today: int): Option<Metrics> {
    if view == [] then None
    else Some(Metrics(|Names(view)|, TotalQty(view), |NearExpiry(view, today, DashboardHorizon)|))
  }

  /** Sum of the positive quantities of the inventory table. */
  function PositiveStock(inv: seq<InventoryRow>): int {
    if inv == [] then 0 else (if inv[0].qty > 0 then inv[0].qty else 0) + PositiveStock(inv[1..])
  }

  lemma {:induction false} NamesBound(view: seq<ViewRow>)
    ensures |Names(view)| <= |view|
  {
    if view != [] {
      NamesBound(view[1..]);
      var x := view[0];
      var own: set<string> := if x.genericName.Some? then {x.genericName.value} else {};
      assert Names(view) == Names(view[1..]) + own by {
        forall n | n in Names(view) ensures n in Names(view[1..]) + own {
          var y :| y in view && y.genericName.Some? && y.genericName.value == n;
          if y != x {
            assert y in view[1..];
          }
        }
        forall n | n in Names(view[1..]) ensures n in Names(view) {
          var y :| y in view[1..] && y.genericName.Some? && y.genericName.value == n;
          assert y in view;
        }
      }
    }
  }

  /** The dashboard's total is the sum of the table's positive quantities. */
  lemma {:induction false} ViewTotalIsPositiveStock(inv: seq<InventoryRow>, meds: seq<Medicine>)
    ensures TotalQty(JoinInStock(inv, meds)) == PositiveStock(inv)
  {
    if inv != [] {
      ViewTotalIsPositiveStock(inv[1..], meds);
    }
  }

  lemma {:induction false} TotalQtyAtLeastCount(view: seq<ViewRow>)
    requires forall x :: x in view ==> x.row.qty > 0
    ensures TotalQty(view) >= |view|
  {
    if view != [] {
      TotalQtyAtLeastCount(view[1..]);
    }
  }

  /** What the dashboard shows for the current tables: an error where the view
      cannot be formed; "empty" exactly when no row has positive quantity;
      otherwise the total equals the positive stock and every shown lot
      contributes at least one unit, the item count is the number of distinct
      names shown, and the at-risk count is the number of shown lots that
      expire within 180 days of today. */
  lemma DashboardFacts(inv: seq<InventoryRow>, meds: seq<Medicine>, today: int)
    ensures match InventoryView(inv, meds)
      case None => inv != [] && meds == []
      case Some(view) =>
        match Dashboard(view, today)
        case None => forall r :: r in inv ==> r.qty <= 0
        case Some(m) =>
          var near := NearExpiry(view, today, DashboardHorizon);
          && m.totalQty == PositiveStock(inv)
          && m.totalQty >= |view| >= 1
          && m.totalItems == |Names(view)| <= |view|
          && (forall n :: n in Names(view) <==> exists x :: x in view && x.genericName == Some(n))
          && m.nearExpiry == |near| <= |view|
          && (forall x :: multiset(near)[x] == if x.row.expDate <= today + DashboardHorizon then multiset(view)[x] else 0)
  {
    if InventoryView(inv, meds).Some? {
      var view := InventoryView(inv, meds).value;
      if view != [] {
        assert view == JoinInStock(inv, meds);
        ViewTotalIsPositiveStock(inv, meds);
        TotalQtyAtLeastCount(view);
        NamesBound(view);
        FilterCounts(view, (x: ViewRow) => x.row.expDate <= today + DashboardHorizon);
        forall n ensures n in Names(view) <==> exists x :: x in view && x.genericName == Some(n) {
          if n in Names(view) {
            var x :| x in view && x.genericName.Some? && x.genericName.value == n;
          }
        }
      }
    }
  }

  // ===========================================================================
  // Menu and login gate

  datatype MenuItem = DashboardPage | DispensePage | ReceivePage | MasterDataPage | AdminPanel

  /** The sidebar's options; the admin panel only for the role "admin". */
  function MenuOptions(role: Option<string>): (r: seq<MenuItem>)
    ensures |r| == if role == Some("admin") then 5 else 4
    ensures r[..4] == [DashboardPage, DispensePage, ReceivePage, MasterDataPage]
    ensures AdminPanel in r <==> role == Some("admin")
  {
    var base := [DashboardPage, DispensePage, ReceivePage, MasterDataPage];
    if role == Some("admin") then base + [AdminPanel] else base
  }

  datatype LoginOutcome = WrongCredentials | NoProfile | AwaitingApproval | Welcome(role: string)

  /** `profile.data[0]`: the first profile row with the signed-in user's id. */
  function FindProfile(ps: seq<Profile>, uid: string): (r: Option<Profile>)
    ensures r.None? <==> forall p :: p in ps ==> p.id != uid
    ensures r.Some? ==> r.value in ps && r.value.id == uid
  {
    if ps == [] then None
    else if ps[0].id == uid then Some(ps[0])
    else FindProfile(ps[1..], uid)
  }

  /** `login_user` after the password check: `authUid` is the id the auth
      service returned, None when it refused the credentials. */
  function LoginDecision(authUid: Option<string>, ps: seq<Profile>): (o: LoginOutcome)
    ensures o.Welcome? <==> authUid.Some? && FindProfile(ps, authUid.value).Some?
                            && FindProfile(ps, authUid.value).value.isApproved
    ensures o.Welcome? ==> o.role == FindProfile(ps, authUid.value).value.role
  {
    match authUid
    case None => WrongCredentials
    case Some(uid) =>
      match FindProfile(ps, uid)
      case None => NoProfile
      case Some(p) => if p.isApproved then Welcome(p.role) else AwaitingApproval
  }

  /** The admin panel's update `profiles.update(...).eq("email", email)`:
      every row with that email becomes approved, and with `promote` an admin. */
  function ApplyApproval(ps: seq<Profile>, email: string, promote: bool): (r: seq<Profile>)
    ensures |r| == |ps|
    ensures forall i :: 0 <= i < |ps| ==>
      r[i] == if ps[i].email == email
              then ps[i].(isApproved := true, role := if promote then "admin" else ps[i].role)
              else ps[i]
  {
    if ps == [] then []
    else
      var p := ps[0];
      var p' := if p.email == email then p.(isApproved := true, role := if promote then "admin" else p.role) else p;
      [p'] + ApplyApproval(ps[1..], email, promote)
  }

  /** Approving an email lets every user whose profile carries it sign in, with
      the role "admin" (and so the admin panel) when promoted; users with
      another email see no change. */
  lemma ApprovalAdmits(ps: seq<Profile>, email: string, promote: bool, uid: string)
    requires FindProfile(ps, uid).Some?
    ensures var p := FindProfile(ps, uid).value;
      var o := LoginDecision(Some(uid), ApplyApproval(ps, email, promote));
      if p.email == email then
        o == Welcome(if promote then "admin" else p.role)
        && (promote ==> AdminPanel in MenuOptions(Some(o.role)))
      else o == LoginDecision(Some(uid), ps)
  {
    FindAfterApproval(ps, email, promote, uid);
  }

  /** After the update, the user's profile row is found where it was, approved
      (and promoted) exactly when it carries the approved email. */
  lemma {:induction false} FindAfterApproval(ps: seq<Profile>, email: string, promote: bool, uid: string)
    requires FindProfile(ps, uid).Some?
    ensures var p := FindProfile(ps, uid).value;
      FindProfile(ApplyApproval(ps, email, promote), uid)
        == Some(if p.email == email then p.(isApproved := true, role := if promote then "admin" else p.role) else p)
  {
    var updated := ApplyApproval(ps, email, promote);
    if ps[0].id != uid {
      assert updated[1..] == ApplyApproval(ps[1..], email, promote);
      FindAfterApproval(ps[1..], email, promote, uid);
    }
  }

  /** The session fields the application keeps for the signed-in user. */
  class Session {
    var user: Option<string>
    var role: Option<string>
    var userEmail: Option<string>

    constructor ()
      ensures user == None && role == None && userEmail == None
    {
      user, role, userEmail := None, None, None;
    }

    /** The session is changed only on a welcome. */
    method Login(authUid: Option<string>, email: string, ps: seq<Profile>) returns (o: LoginOutcome)
      modifies this
      ensures o == LoginDecision(authUid, ps)
      ensures o.Welcome? ==> user == authUid && role == Some(o.role) && userEmail == Some(email)
      ensures !o.Welcome? ==> user == old(user) && role == old(role) && userEmail == old(userEmail)
    {
      o := LoginDecision(authUid, ps);
      if o.Welcome? {
        user, role, userEmail := authUid, Some(o.role), Some(email);
      }
    }

    /** Signing out clears the user and the role but leaves the stored email. */
    method Logout()
      modifies this
      ensures user == None && role == None && userEmail == old(userEmail)
    {
      user, role := None, None;
    }

    function Menu(): (r: seq<MenuItem>)
      reads this
      ensures AdminPanel in r <==> role == Some("admin")
    {
      MenuOptions(role)
    }
  }

  // ===========================================================================
  // The ledger: per (medicine, lot), stock equals the sum of recorded changes

  function StockOf(inv: seq<InventoryRow>, m: string, l: string): int {
    if inv == [] then 0
    else (if inv[0].medicineId == m && inv[0].lotNo == l then inv[0].qty else 0) + StockOf(inv[1..], m, l)
  }

  function LedgerOf(tx: seq<Transaction>, m: string, l: string): int {
    if tx == [] then 0
    else (if tx[0].medicineId == m && tx[0].lotNo == l then tx[0].qtyChange else 0) + LedgerOf(tx[1..], m, l)
  }

  ghost predicate Balanced(inv: seq<InventoryRow>, tx: seq<Transaction>) {
    forall m, l :: StockOf(inv, m, l) == LedgerOf(tx, m, l)
  }

  lemma {:induction false} StockAppend(inv: seq<InventoryRow>, r: InventoryRow, m: string, l: string)
    ensures StockOf(inv + [r], m, l) == StockOf(inv, m, l) + (if r.medicineId == m && r.lotNo == l then r.qty else 0)
  {
    if inv == [] {
      assert inv + [r] == [r];
    } else {
      assert (inv + [r])[1..] == inv[1..] + [r];
      StockAppend(inv[1..], r, m, l);
    }
  }

  lemma {:induction false} StockUpdate(inv: seq<InventoryRow>, i: nat, r: InventoryRow, m: string, l: string)
    requires i < |inv|
    ensures StockOf(inv[i := r], m, l)
         == StockOf(inv, m, l)
            - (if inv[i].medicineId == m && inv[i].lotNo == l then inv[i].qty else 0)
            + (if r.medicineId == m && r.lotNo == l then r.qty else 0)
  {
    if i > 0 {
      assert inv[i := r][1..] == inv[1..][i - 1 := r];
      StockUpdate(inv[1..], i - 1, r, m, l);
    }
  }

  lemma {:induction false} LedgerAppend(tx: seq<Transaction>, t: Transaction, m: string, l: string)
    ensures LedgerOf(tx + [t], m, l) == LedgerOf(tx, m, l) + (if t.medicineId == m && t.lotNo == l then t.qtyChange else 0)
  {
    if tx == [] {
      assert tx + [t] == [t];
    } else {
      assert (tx + [t])[1..] == tx[1..] + [t];
      LedgerAppend(tx[1..], t, m, l);
    }
  }

  ghost predicate UniqueIds(inv: seq<InventoryRow>) {
    forall i, j :: 0 <= i < j < |inv| ==> inv[i].id != inv[j].id
  }

  /** `inventory.update({"qty": q}).eq("id", id)`: only the `qty` column
      changes, it becomes `q` on the rows with that id, and the other rows stay
      as they were. */
  function UpdateQty(inv: seq<InventoryRow>, id: int, q: int): (r: seq<InventoryRow>)
    ensures |r| == |inv|
    ensures forall k :: 0 <= k < |inv| ==> r[k].(qty := inv[k].qty) == inv[k]
    ensures forall k :: 0 <= k < |inv| && inv[k].id == id ==> r[k].qty == q
    ensures forall k :: 0 <= k < |inv| && inv[k].id != id ==> r[k] == inv[k]
  {
    seq(|inv|, k requires 0 <= k < |inv| => if inv[k].id == id then inv[k].(qty := q) else inv[k])
  }

  /** With unique ids, the update by id touches the one row that carries it. */
  lemma UpdateQtyIsOneRow(inv: seq<InventoryRow>, i: nat, q: int)
    requires UniqueIds(inv) && i < |inv|
    ensures UpdateQty(inv, inv[i].id, q) == inv[i := inv[i].(qty := q)]
  {
  }

  /** The DISPENSE entry the application writes for `amount` taken from `row`. */
  function DispenseEntry(row: InventoryRow, amount: int, user: string, note: string, today: int): (t: Transaction)
    ensures t.action == Dispense && t.qtyChange == -amount
    ensures t.medicineId == row.medicineId && t.lotNo == row.lotNo
  {
    Transaction(row.medicineId, Dispense, -amount, row.lotNo, user, note, today)
  }

  /** The note the receive form stores ("received as usual"). */
  const ReceiveNote: string := "รับเข้าปกติ"

  /** The RECEIVE entry the application writes for a delivery. */
  function ReceiveEntry(medicineId: string, lotNo: string, qty: int, user: string, today: int): (t: Transaction)
    ensures t.action == Receive && t.qtyChange == qty
    ensures t.medicineId == medicineId && t.lotNo == lotNo
  {
    Transaction(medicineId, Receive, qty, lotNo, user, ReceiveNote, today)
  }

  /** Dispensing from one row moves that lot's stock and its ledger by the same
      amount and leaves every other (medicine, lot) alone. */
  lemma DispenseKeepsBalance(inv: seq<InventoryRow>, tx: seq<Transaction>, i: nat, amount: int,
                             user: string, note: string, today: int)
    requires UniqueIds(inv) && i < |inv| && Balanced(inv, tx)
    ensures Balanced(UpdateQty(inv, inv[i].id, inv[i].qty - amount),
                     tx + [DispenseEntry(inv[i], amount, user, note, today)])
  {
    var row := inv[i];
    var inv' := UpdateQty(inv, row.id, row.qty - amount);
    var t := DispenseEntry(row, amount, user, note, today);
    UpdateQtyIsOneRow(inv, i, row.qty - amount);
    forall m, l ensures StockOf(inv', m, l) == LedgerOf(tx + [t], m, l) {
      StockUpdate(inv, i, row.(qty := row.qty - amount), m, l);
      LedgerAppend(tx, t, m, l);
    }
  }

  /** Receiving adds `qty` to the stock and the ledger of its (medicine, lot),
      whether or not that lot already has a row. */
  lemma ReceiveKeepsBalance(inv: seq<InventoryRow>, tx: seq<Transaction>, id: int, medicineId: string,
                            lotNo: string, mfg: int, exp: int, qty: int, user: string, today: int)
    requires Balanced(inv, tx)
    ensures var inv' := inv + [InventoryRow(id, medicineId, lotNo, mfg, exp, qty)];
      && Balanced(inv', tx + [ReceiveEntry(medicineId, lotNo, qty, user, today)])
      && StockOf(inv', medicineId, lotNo) == StockOf(inv, medicineId, lotNo) + qty
  {
    var r := InventoryRow(id, medicineId, lotNo, mfg, exp, qty);
    var t := ReceiveEntry(medicineId, lotNo, qty, user, today);
    forall m, l ensures StockOf(inv + [r], m, l) == LedgerOf(tx + [t], m, l) {
      StockAppend(inv, r, m, l);
      LedgerAppend(tx, t, m, l);
    }
    StockAppend(inv, r, medicineId, lotNo);
  }

  // ===========================================================================
  // The tables, updated in place by the dispense and receive forms

  class Clinic {
    var medicines: seq<Medicine>
    var inventory: seq<InventoryRow>
    var transactions: seq<Transaction>
    var profiles: seq<Profile>
    /** The inventory table's identity sequence: the id the next inserted row gets. */
    var nextId: int

    ghost predicate Valid()
      reads this
    {
      UniqueIds(inventory) && forall k :: 0 <= k < |inventory| ==> inventory[k].id < nextId
    }

    constructor (medicines: seq<Medicine>, inventory: seq<InventoryRow>, transactions: seq<Transaction>,
                 profiles: seq<Profile>, nextId: int)
      requires UniqueIds(inventory) && forall k :: 0 <= k < |inventory| ==> inventory[k].id < nextId
      ensures Valid()
      ensures this.medicines == medicines && this.inventory == inventory && this.transactions == transactions
      ensures this.profiles == profiles && this.nextId == nextId
    {
      this.medicines, this.inventory, this.transactions := medicines, inventory, transactions;
      this.profiles, this.nextId := profiles, nextId;
    }

    /** The available-stock view of the current tables; None where it cannot be formed. */
    function View(): (v: Option<seq<ViewRow>>)
      reads this
      ensures v.None? <==> inventory != [] && medicines == []
      ensures v.Some? ==> forall x :: x in v.value ==> x.row in inventory && x.row.qty > 0
    {
      InventoryView(inventory, medicines)
    }

    /** The dispense form of lot `row`: its quantity is overwritten with
        `row.qty - amount` and one DISPENSE entry of `-amount` is appended.
        The number field admits only 1 <= amount <= row.qty. */
    method DispenseLot(row: InventoryRow, amount: int, user: string, note: string, today: int)
      requires Valid() && row in inventory
      requires 1 <= amount <= row.qty
      modifies this
      ensures Valid()
      ensures 0 <= row.qty - amount < row.qty
      ensures |inventory| == |old(inventory)|
      ensures forall k :: 0 <= k < |inventory| ==>
        inventory[k] == if old(inventory)[k] == row then row.(qty := row.qty - amount) else old(inventory)[k]
      ensures transactions == old(transactions) + [DispenseEntry(row, amount, user, note, today)]
      ensures medicines == old(medicines) && profiles == old(profiles) && nextId == old(nextId)
      ensures Balanced(old(inventory), old(transactions)) ==> Balanced(inventory, transactions)
    {
      ghost var i :| 0 <= i < |inventory| && inventory[i] == row;
      ghost var inv0, tx0 := inventory, transactions;
      inventory := UpdateQty(inventory, row.id, row.qty - amount);
      transactions := transactions + [DispenseEntry(row, amount, user, note, today)];
      if Balanced(inv0, tx0) {
        DispenseKeepsBalance(inv0, tx0, i, amount, user, note, today);
      }
      UpdateQtyIsOneRow(inv0, i, row.qty - amount);
    }

    /** The receive form: a new row for the lot (no check for an existing row
        with the same lot number) and one RECEIVE entry of `+qty`. The number
        field admits only qty >= 1; the medicine is chosen among the active ones. */
    method ReceiveLot(medicineId: string, lotNo: string, mfg: int, exp: int, qty: int, user: string, today: int)
      requires Valid() && qty >= 1
      requires exists m :: m in medicines && m.isActive && m.id == medicineId
      modifies this
      ensures Valid()
      ensures inventory == old(inventory) + [InventoryRow(old(nextId), medicineId, lotNo, mfg, exp, qty)]
      ensures transactions == old(transactions) + [ReceiveEntry(medicineId, lotNo, qty, user, today)]
      ensures nextId == old(nextId) + 1
      ensures medicines == old(medicines) && profiles == old(profiles)
      ensures StockOf(inventory, medicineId, lotNo) == StockOf(old(inventory), medicineId, lotNo) + qty
      ensures Balanced(old(inventory), old(transactions)) ==> Balanced(inventory, transactions)
    {
      ghost var inv0, tx0 := inventory, transactions;
      inventory := inventory + [InventoryRow(nextId, medicineId, lotNo, mfg, exp, qty)];
      transactions := transactions + [ReceiveEntry(medicineId, lotNo, qty, user, today)];
      nextId := nextId + 1;
      StockAppend(inv0, InventoryRow(nextId - 1, medicineId, lotNo, mfg, exp, qty), medicineId, lotNo);
      if Balanced(inv0, tx0) {
        ReceiveKeepsBalance(inv0, tx0, nextId - 1, medicineId, lotNo, mfg, exp, qty, user, today);
      }
    }

    /** "Approve as staff" (`promote` false) and "appoint as admin" (`promote` true). */
    method Approve(email: string, promote: bool)
      modifies this
      ensures profiles == ApplyApproval(old(profiles), email, promote)
      ensures medicines == old(medicines) && inventory == old(inventory)
      ensures transactions == old(transactions) && nextId == old(nextId)
      ensures forall uid :: FindProfile(old(profiles), uid).Some? && FindProfile(old(profiles), uid).value.email == email
                ==> LoginDecision(Some(uid), profiles).Welcome?
    {
      ghost var ps := profiles;
      profiles := ApplyApproval(profiles, email, promote);
      forall uid | FindProfile(ps, uid).Some? && FindProfile(ps, uid).value.email == email
        ensures LoginDecision(Some(uid), profiles).Welcome?
      {
        ApprovalAdmits(ps, email, promote, uid);
      }
    }
  }
}
