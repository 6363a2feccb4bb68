# Clinic medicine stock: a Dafny model

This project models the stock-keeping core of a small clinic's medicine store application. It has two parts.

- **The web application's table operations** (`streamlit_app.py`):
  - the available-stock view: inventory rows left-joined with their medicine and kept when qty > 0;
  - the lots offered for one drug, earliest expiry first;
  - the dashboard figures: distinct names, total quantity, lots expiring within 180 days;
  - the role-gated menu;
  - the login approval gate and the session fields it sets;
  - the admin's approve / promote update;
  - the two stock updates. Dispensing overwrites one lot's quantity and appends a DISPENSE entry. Receiving inserts a new lot row and appends a RECEIVE entry.
- **The monthly report job** (`auto_report.py`, up to the message push). It is a function from the medicines, inventory and transactions tables and today's date to the message:
  - the previous-month window, with a Thai month name and a Buddhist-Era year;
  - the drug and supply counts;
  - the top five received and dispensed generic names;
  - the medicines at or below their reorder point;
  - the lots expiring within 90 days;
  - listings cut at ten lines with an "and N more" line.

Modules:

- `Common`: Option, row filtering.
- `Calendar`: civil dates numbered as Python's `date.toordinal` numbers them, and the day before a date.
- `Sorting`: a sort by a total preorder, promising only order and permutation, since pandas' default sort is not stable.
- `Tables`: the four tables' rows.
- `Inventory`: the application's tables, with the classes `Session` and `Clinic` whose methods update fields in place.
- `MonthlyReport`: the report.

Modelling choices:

- Dates are day numbers. The report's `today` is a calendar date.
- The message is a sequence of structured lines (`MonthlyReport.Line`), not formatted Thai text.
- The report's loops that append to the message parts are methods (`ListRanking`, `ListTruncated`, ...). They are proved equal to the functions that specify the parts.
- The available-stock view is `None` where `get_inventory_view`'s merge raises: the inventory has rows but the medicines table is empty, so its frame has no `id` column.
- The ledger invariant is stated on values and carried by the `Clinic` methods. For every (medicine, lot), the sum of the inventory quantities equals the sum of the recorded changes.

## Model

| member | source | states |
|---|---|---|
| Inventory.InventoryView | streamlit_app.py:64-69 | No view (the merge raises) iff the inventory has rows and the medicines table is empty. Otherwise: every view row is an inventory row with qty > 0, joined with its medicine; every row with qty > 0 appears; the view is empty iff no row has positive qty, so it is empty for an empty table. |
| Inventory.JoinInStock | streamlit_app.py:68-69 | The left merge and the qty > 0 filter, with both directions of membership, and the view no longer than the table. |
| Inventory.LotsFor | streamlit_app.py:152-153 | The lots offered for a drug are in ascending expiry order. They are exactly the view rows carrying that generic name, with multiplicities. |
| Inventory.DashboardFacts | streamlit_app.py:121-127 | The page fails iff the view cannot be formed. It shows "empty" iff no row has positive qty. Otherwise: the total quantity is the sum of positive quantities and is at least the number of lots. The item count is the number of distinct names shown, and a name is counted iff some shown lot carries it. The at-risk count is the number of shown lots expiring within 180 days, each lot counted with its multiplicity. |
| Inventory.ViewTotalIsPositiveStock | streamlit_app.py:124 | The summed `qty` of the view is the sum of the table's positive quantities. |
| Inventory.NamesBound | streamlit_app.py:123 | `nunique` of the names is at most the number of view rows. |
| Inventory.MenuOptions | streamlit_app.py:94-95 | Four fixed entries. The "Admin Panel" entry is present iff the role is "admin". |
| Inventory.FindProfile | streamlit_app.py:40-41 | Finds a profile row with the user's id iff one exists. |
| Inventory.LoginDecision | streamlit_app.py:37-52 | Welcome iff the credentials are accepted, a profile exists and it is approved. The role granted is the profile's role. |
| Inventory.Session.Login | streamlit_app.py:41-45 | The outcome is the login decision. On a welcome the user, role and email are set. Otherwise the session is unchanged. |
| Inventory.Session.Logout | streamlit_app.py:54-58 | User and role are cleared. The stored email is kept, as the code leaves it. |
| Inventory.Session.Menu | streamlit_app.py:94-95 | The session's menu has the admin panel iff its role is "admin". |
| Inventory.ApplyApproval | streamlit_app.py:111-114 | The staff approval and the admin promotion: every profile with the email becomes approved, and with promote becomes an admin. Every other profile is untouched. |
| Inventory.ApprovalAdmits | streamlit_app.py:108-115 | After approval, a user whose profile has that email is welcomed, as an admin with the admin panel when promoted. Other users' login outcome does not change. |
| Inventory.FindAfterApproval | streamlit_app.py:111-114 | After the update, the user's profile lookup returns the updated row. |
| Inventory.Clinic.Approve | streamlit_app.py:110-115 | Only the profiles table changes, to the approval update. Every user with that email can then log in. |
| Inventory.UpdateQty | streamlit_app.py:166 | `update({"qty": q}).eq("id", id)` changes only the qty column. It sets qty to q on the rows with that id and leaves every other row as it was. |
| Inventory.UpdateQtyIsOneRow | streamlit_app.py:166 | With unique ids, the update changes the one chosen row. |
| Inventory.DispenseEntry | streamlit_app.py:167-171 | A DISPENSE entry with qty_change = -amount and the row's medicine and lot. |
| Inventory.ReceiveEntry | streamlit_app.py:201-204 | A RECEIVE entry with qty_change = +qty and the chosen medicine and lot. |
| Inventory.DispenseKeepsBalance | streamlit_app.py:165-171 | Dispensing preserves the ledger invariant for every (medicine, lot). |
| Inventory.ReceiveKeepsBalance | streamlit_app.py:197-204 | Receiving preserves the ledger invariant and adds qty to that lot's stock, whether or not the lot already has a row. |
| Inventory.Clinic.DispenseLot | streamlit_app.py:162-171 | With 1 <= amount <= qty, the new qty satisfies 0 <= qty - amount < qty. Only the chosen row changes. Exactly one DISPENSE entry is appended. The other tables are unchanged. The ledger invariant is kept. |
| Inventory.Clinic.ReceiveLot | streamlit_app.py:194-204 | One new row with a fresh id and qty >= 1 is appended, with no duplicate-lot check. One RECEIVE entry of +qty is appended. The ledger invariant is kept. |
| Inventory.Clinic.View | streamlit_app.py:64-69 | The view of the current tables fails iff the inventory has rows and there are no medicines. Otherwise it holds only rows with qty > 0. |
| Inventory.ViewHasNoIdColumn | streamlit_app.py:161-166 | The merged view's columns carry `id_x` (first, the inventory id) and `id_y` but no `id`, which the dispense form reads. |
| Tables.FindMedicine | streamlit_app.py:68 | The merged medicine is found iff one has the row's medicine id. |
| Common.Filter | streamlit_app.py:69 | Boolean-mask filtering keeps exactly the rows satisfying the mask. |
| Common.FilterCounts | auto_report.py:106 | Filtering keeps every occurrence of a kept row and drops the others. |
| Sorting.SortBy | streamlit_app.py:153 | `sort_values` returns a sorted permutation of its input. |
| Calendar.DayBefore | auto_report.py:27 | `- timedelta(days=1)` fails only on 1 January of year 1, and otherwise gives an earlier valid date. |
| Calendar.DayBeforeIsOneDayBack | auto_report.py:27 | The day before is exactly one ordinal day back. |
| Calendar.OrdinalMonotone | auto_report.py:37 | Date order agrees with the day-number order the window compares in. |
| Calendar.InMonthByOrdinal | auto_report.py:37 | A date is in a month iff its day number lies between that month's first and last day. |
| MonthlyReport.ReportWindowFacts | auto_report.py:25-28 | The window exists except in January of year 1. It consists of this month's first day, the previous month's last day and that month's first day, where January's previous month is December of the year before. |
| MonthlyReport.WindowAdjacent | auto_report.py:26-27 | The previous month's last day is one day before this month's first. |
| MonthlyReport.WindowIsPreviousMonth | auto_report.py:37 | A date is in the transactions window iff it falls in the previous calendar month. |
| MonthlyReport.MonthKey | auto_report.py:30 | `strftime('%m')` yields two characters with the expected leading digit. |
| MonthlyReport.MonthNames | auto_report.py:30 | Every month's two-digit key is in the Thai month table and maps to that month's name. |
| MonthlyReport.TitleNamesPreviousMonth | auto_report.py:30-32 | The title names the previous month and its year + 543. |
| MonthlyReport.CountsWithinTable | auto_report.py:40-44 | Drugs plus supplies is at most the number of active medicines, since the category sets are disjoint. |
| MonthlyReport.Movements | auto_report.py:51-60 | Each transaction gives at most one joined row: the RECEIVE rows, or the DISPENSE rows with absolute amounts, whose medicine is active and named. |
| MonthlyReport.MovementsTotal | auto_report.py:52-61 | A name's total over the joined rows equals the sum, read off the transactions, of the amounts of that kind whose medicine carries the name (`qty_change` for RECEIVE, its absolute value for DISPENSE). |
| MonthlyReport.MovedNamesAreTransactions | auto_report.py:51-59 | A name is grouped iff some transaction of that kind has an active medicine carrying it. |
| MonthlyReport.RankedTotals | auto_report.py:52-61 | Every ranked name's total is the sum of its transactions' amounts, and the name has at least one such transaction. |
| MonthlyReport.DistinctNames | auto_report.py:52 | The groupby keys are exactly the moved names, each once. |
| MonthlyReport.GroupsFacts | auto_report.py:52 | The groups are exactly the moved names, each with the sum of its amounts. Names and alphabetical positions are pairwise distinct, and positions are below the group count. |
| MonthlyReport.PositionsAreRanks | auto_report.py:52 | The `reset_index` labels are distinct alphabetical ranks below the group count. |
| MonthlyReport.RankingFacts | auto_report.py:52 | For both rankings (line 61 is the same for dispensing): at most five groups, in descending order of total, drawn from the groups with no group repeated (a sub-multiset). A group left out has a total no larger than any ranked one. |
| MonthlyReport.TopOfSorted | auto_report.py:61 | The first five of any descending sort of the groups have those properties, including being a sub-multiset of the groups. |
| MonthlyReport.RankLinesNumbered | auto_report.py:54-65 | Line k of a ranking carries number k + 1 and the k-th group's name and total, as received or dispensed. |
| MonthlyReport.RankLinesAsWritten | auto_report.py:56 | Line k is numbered with the k-th ranked group's alphabetical position + 1, the `idx + 1` the job prints. It carries that group's name and total, received or dispensed. |
| MonthlyReport.PrintedNumberIsNotRank | auto_report.py:54-56 | For "a" moved once and "b" five times, "b" is first but is printed as number 2. The corrected numbering prints 1. |
| MonthlyReport.MovementSectionOpens | auto_report.py:47-69 | Each ranking part has its heading and at least one line. |
| MonthlyReport.ListRanking | auto_report.py:63-65 | The loop writes the heading, then one line per ranked group in ranking order, numbered 1, 2, ... (the corrected numbering). |
| MonthlyReport.ListMovements | auto_report.py:47-69 | Parts 2 and 3 built by the loops equal the specified ranking part, with the corrected numbering. |
| MonthlyReport.NoRowsNoStock | auto_report.py:81-85 | A medicine without lots has stock 0. |
| MonthlyReport.LowStockFacts | auto_report.py:78-90 | A medicine is flagged iff its stock (the sum over all its lots, zero-qty lots included, or 0) is at most min_stock. A medicine without lots is flagged iff min_stock >= 0. Low drugs + low supplies <= low total. |
| MonthlyReport.Truncated | auto_report.py:97-100 | At most ten lines are kept, in order, then "and N more" with N = count - 10 exactly when there are more than ten. |
| MonthlyReport.ListTruncated | auto_report.py:113-115 | The listing loop writes the heading and then the truncated lines. |
| MonthlyReport.ListLowStock | auto_report.py:92-102 | Part 4 built by the loop equals the specified low-stock part. |
| MonthlyReport.NearExpiryFacts | auto_report.py:105-109 | A lot is reported iff it is in the table, has qty > 0 and expires within 90 days. |
| MonthlyReport.ExpiryListsNearLots | auto_report.py:110-115 | The lot count line, then the first ten near-expiry lots in table order, each with its medicine's name (missing when not active), qty and expiry date. |
| MonthlyReport.ExpiryClosing | auto_report.py:104-118 | Part 5's last line is "no stock data" iff the inventory table is empty. |
| MonthlyReport.ListExpiring | auto_report.py:104-118 | Part 5 built by the loop equals the corrected expiry part, which lists the lots without a name where line 111 raises. |
| MonthlyReport.ExpiryListingWithoutMedicines | auto_report.py:111 | With no active medicine and one near-expiry lot, the as-written part fails. The corrected part lists the lot without a name. |
| MonthlyReport.ReportExists | auto_report.py:25-28 | The corrected report exists iff today is not in January of year 1. |
| MonthlyReport.ReportOpening | auto_report.py:30-47 | The message starts with the title for the previous month, then the holdings counts of the active medicines, then the received heading. |
| MonthlyReport.ReportLeadingLines | auto_report.py:40-47 | The first three lines are the title, the holdings and the received heading. |
| MonthlyReport.ReportWithoutMovement | auto_report.py:67-69 | With no active medicine or no transaction in the window, both rankings say only "no movement". |
| MonthlyReport.ReportClosing | auto_report.py:118-120 | The message ends with part 5. Its last line is "no stock data" iff the inventory table is empty. |
| MonthlyReport.AssembleFront | auto_report.py:120 | The concatenation puts the title first and the parts in order after it. |
| MonthlyReport.AssembleLast | auto_report.py:120 | The concatenation ends with part 5's last line. |
| MonthlyReport.GenerateReport | auto_report.py:24-120 | The message built part by part equals the corrected report. |

## Left out

- Supabase client creation, authentication calls and query execution. The tables are in-memory sequences. The auth service's answer is a parameter (`authUid`) of the login.
- The LINE push (`send_line_message`, `auto_report.py:18-22, 121`) and the environment variables. These are I/O. The model stops at the assembled message.
- Streamlit widgets, layout, `time.sleep`, `st.rerun` and the framework's session mechanics. The form limits on the amount (1..qty) and the received quantity (>= 1) are method preconditions.
- Text formatting: Thai and emoji strings, `strftime('%d/%m/%Y')`, and the thousands separator. Lines are structured values.
- pandas details: `pd.to_datetime` parsing, NaN from `fillna` and missing `min_stock`, and dtype coercion. Every row is taken to have all its fields. The merges' column names are modelled only for the available-stock view (`Inventory.ViewColumns`).
- The order of ties in `sort_values`. Its default algorithm is not stable. `Sorting.SortBy` and the rankings promise order and permutation, not a particular order among equal totals.
- Atomicity and concurrency. The inventory update and the transaction insert are two separate requests, and concurrent users may interleave. Each method applies both at once.
- The master-data form that adds a medicine (`streamlit_app.py:207-221`) and the dashboard's per-name summary table (`streamlit_app.py:138-143`). These are display and a plain insert, not stock logic.
- Automatic multi-lot FEFO allocation, transaction edit/delete reconciliation and rejection of duplicate lot numbers. None of these exists in the code. The model follows the code: one lot is dispensed at a time, and receiving never checks for an existing lot.
- The report's expiry heading reads "<90 days" while the code selects `exp_date <= today + 90`. The model follows the code.
- `Calendar.Ordinal` is the model's day numbering. Dates outside years 1..9999 are not modelled.
- MonthlyReport.Report uses the corrected rank numbering and the corrected expiry listing. The as-written behaviour of both is modelled separately (see Findings).
- ListRanking: numbers the lines 1, 2, ... in ranking order, where line 65 (and line 56) prints the alphabetical label + 1. The as-written numbering is `RankLinesAsWritten`.
- ListMovements: builds parts 2 and 3 with the corrected numbering of `ListRanking`, not the labels the job prints.
- ListExpiring: returns the corrected part 5 even where line 111 raises (no active medicine and some lot near expiry). The as-written outcome is `ExpirySectionAsWritten`.
- GenerateReport: builds the corrected report. As written, the job also stops at line 111 in the case above, and its rankings carry the alphabetical numbers.
- ReportExists: is stated of the corrected report. As written, the job also fails in the line 111 case.
- Inventory.Clinic.DispenseLot: updates the lot by the inventory row's own id (the merged view's `id_x`). As written, lines 161 and 166 read `row['id']`, which the merged view lacks, so the dispense form is never drawn (see Findings).

## Findings

| source | as written | input that shows it | evidently intended | confidence | as-written member | corrected member |
|---|---|---|---|---|---|---|
| auto_report.py:54-56, 63-65 | The number printed before each ranked name is `idx + 1`. After `reset_index` and `sort_values`, `idx` is the group's alphabetical position. | RECEIVE totals "a" = 1 and "b" = 5: "b" is listed first as "2." and "a" second as "1." | Number the lines 1, 2, ... in ranking order | high; not executed | MonthlyReport.RankLinesAsWritten, MonthlyReport.PrintedNumberIsNotRank | MonthlyReport.RankLines, MonthlyReport.RankLinesNumbered |
| auto_report.py:111 | `meds[['id', 'generic_name']]` is taken from the active-medicines frame. With no active medicine, the frame has no columns and the selection raises, so the job stops before sending. | No active medicine, and one inventory row with qty 5 expiring within 90 days | List the lot without a name, as the left merge does for a lot whose medicine is inactive | medium; not executed | MonthlyReport.ExpirySectionAsWritten, MonthlyReport.ExpiryListingWithoutMedicines | MonthlyReport.ExpirySection, MonthlyReport.ExpiryListsNearLots |
| streamlit_app.py:161-166 | The dispense form names itself and updates by `row['id']`. The view merges the inventory and medicines frames, which both have an `id` column, on differently named keys, so pandas renames the two to `id_x` and `id_y`. The row has no `id`, and the page raises at the first lot. | Any inventory row with qty > 0 whose medicine exists, shown on the dispense page | Key the form and the update on the inventory row's id (`id_x`) | medium; not executed | Inventory.ViewColumns, Inventory.ViewHasNoIdColumn | Inventory.Clinic.DispenseLot, Inventory.UpdateQtyIsOneRow |
