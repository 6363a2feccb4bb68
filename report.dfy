/** The monthly stock report: from the medicines, inventory and transactions
    tables and today's date, the message the clinic's chat group receives.
    The message is a sequence of structured lines rather than formatted text. */
module MonthlyReport {
  import opened Common
  import opened Tables
  import Calendar
  import Sorting

  // ===========================================================================
  // Reporting period and title

  /** Thai month names keyed by the two-digit month number. */
  const ThaiMonths: map<string, string> := map[
    "01" := "มกราคม", "02" := "กุมภาพันธ์", "03" := "มีนาคม", "04" := "เมษายน",
    "05" := "พฤษภาคม", "06" := "มิถุนายน", "07" := "กรกฎาคม", "08" := "สิงหาคม",
    "09" := "กันยายน", "10" := "ตุลาคม", "11" := "พฤศจิกายน", "12" := "ธันวาคม"]

  /** The Buddhist Era year is the Gregorian year plus this offset. */
  const BuddhistEraOffset: int := 543

  /** `strftime('%m')`: the month as two decimal digits. */
  function MonthKey(m: int): (k: string)
    requires 1 <= m <= 12
    ensures |k| == 2 && k[0] == (if m < 10 then '0' else '1')
  {
    [('0' as int + m / 10) as char, ('0' as int + m % 10) as char]
  }

  /** The month before (y, m), as the calendar counts. */
  function PrevMonthOf(y: int, m: int): (int, int) {
    if m == 1 then (y - 1, 12) else (y, m - 1)
  }

  /** First day of the previous month (inclusive), first day of this month
      (exclusive) and the last day of the previous month. */
  datatype Window = Window(firstOfPrev: Calendar.Date, firstOfThis: Calendar.Date, lastOfPrev: Calendar.Date)

  /** Lines 25-28 of the report job; None where stepping back one day from
      1 January of year 1 overflows. */
  function ReportWindow(today: Calendar.Date): (w: Option<Window>)
    requires Calendar.Valid(today)
  {
    var firstOfThis := Calendar.FirstOfMonth(today);
    match Calendar.DayBefore(firstOfThis)
    case None => None
    case Some(lastOfPrev) => Some(Window(lastOfPrev.(day := 1), firstOfThis, lastOfPrev))
  }

  /** The window exists except on 1 January of year 1, and is the previous
      month's first day, this month's first day and the previous month's last day. */
  lemma ReportWindowFacts(today: Calendar.Date)
    requires Calendar.Valid(today)
    ensures var w := ReportWindow(today);
      && (w.None? <==> today.year == Calendar.MinYear && today.month == 1)
      && (w.Some? ==> WindowOf(today, w.value))
  {
    PreviousMonthExists(today);
    if ReportWindow(today).Some? {
      PreviousMonthStep(today);
    }
  }

  /** The previous month's last day is the day before this month's first. */
  lemma WindowAdjacent(today: Calendar.Date)
    requires Calendar.Valid(today) && ReportWindow(today).Some?
    ensures var w := ReportWindow(today).value;
      Calendar.Valid(w.lastOfPrev) && Calendar.Valid(w.firstOfThis)
      && Calendar.Ordinal(w.lastOfPrev) + 1 == Calendar.Ordinal(w.firstOfThis)
  {
    Calendar.DayBeforeIsOneDayBack(Calendar.FirstOfMonth(today));
  }

  /** Stepping back one day from the first of this month fails only from
      1 January of year 1 ... */
  lemma PreviousMonthExists(today: Calendar.Date)
    requires Calendar.Valid(today)
    ensures Calendar.DayBefore(Calendar.FirstOfMonth(today)).None? <==> today.year == Calendar.MinYear && today.month == 1
  {
  }

  /** ... and otherwise lands on the last day of the previous month. */
  lemma PreviousMonthStep(today: Calendar.Date)
    requires Calendar.Valid(today) && Calendar.DayBefore(Calendar.FirstOfMonth(today)).Some?
    ensures var first := Calendar.FirstOfMonth(today);
      var last := Calendar.DayBefore(first).value;
      WindowOf(today, Window(last.(day := 1), first, last))
  {
    var first := Calendar.FirstOfMonth(today);
    PreviousMonthExists(today);
    Calendar.DayBeforeFirst(first);
  }

  /** What the three dates of the window are for `today`. */
  ghost predicate WindowOf(today: Calendar.Date, w: Window)
    requires Calendar.Valid(today)
  {
    && Calendar.Valid(w.firstOfPrev) && Calendar.Valid(w.firstOfThis) && Calendar.Valid(w.lastOfPrev)
    && w.firstOfThis == Calendar.Date(today.year, today.month, 1)
    && (w.lastOfPrev.year, w.lastOfPrev.month) == PrevMonthOf(today.year, today.month)
    && w.lastOfPrev.day == Calendar.DaysInMonth(w.lastOfPrev.year, w.lastOfPrev.month)
    && w.firstOfPrev == w.lastOfPrev.(day := 1)
  }

  /** The transactions query: `created_at` from the first of the previous month
      up to, not including, the first of this month. */
  predicate InWindow(t: Transaction, w: Window)
    requires Calendar.Valid(w.firstOfPrev) && Calendar.Valid(w.firstOfThis)
  {
    Calendar.Ordinal(w.firstOfPrev) <= t.createdAt < Calendar.Ordinal(w.firstOfThis)
  }

  function WindowTransactions(tx: seq<Transaction>, w: Window): seq<Transaction>
    requires Calendar.Valid(w.firstOfPrev) && Calendar.Valid(w.firstOfThis)
  {
    Filter(tx, (t: Transaction) => InWindow(t, w))
  }

  /** The window holds exactly the days of the previous calendar month
      (December of the year before, when today is in January). */
  lemma WindowIsPreviousMonth(today: Calendar.Date, x: Calendar.Date)
    requires Calendar.Valid(today) && Calendar.Valid(x) && ReportWindow(today).Some?
    ensures var w := ReportWindow(today).value;
      Calendar.Ordinal(w.firstOfPrev) <= Calendar.Ordinal(x) < Calendar.Ordinal(w.firstOfThis)
      <==> (x.year, x.month) == PrevMonthOf(today.year, today.month)
  {
    var w := ReportWindow(today).value;
    ReportWindowFacts(today);
    WindowAdjacent(today);
    Calendar.InMonthByOrdinal(x, w.lastOfPrev.year, w.lastOfPrev.month);
  }

  // ===========================================================================
  // The message

  datatype Line =
    | Title(monthName: Option<string>, buddhistYear: int)
    | Holdings(drugs: nat, supplies: nat)
    | ReceiveHeading
    | DispenseHeading
    | Received(number: nat, name: string, total: int, unit: string)
    | Dispensed(number: nat, name: string, total: int, unit: string)
    | NothingReceived
    | NothingDispensed
    | NoMovement
    | LowStockHeading(flagged: nat, drugs: nat, supplies: nat)
    | LowStockItem(name: string, remaining: int, minStock: int)
    | StockSufficient
    | AndMore(count: nat)
    | ExpiryHeading
    | ExpiringLots(count: nat)
    | ExpiringLot(medicineName: Option<string>, remaining: int, expDate: int)
    | NothingExpiring
    | NoStockData

  /** `THAI_MONTHS.get(...)` and the Buddhist year of the reported month. */
  function TitleLine(w: Window): Line
    requires Calendar.Valid(w.lastOfPrev)
  {
    var key := MonthKey(w.lastOfPrev.month);
    Title(if key in ThaiMonths then Some(ThaiMonths[key]) else None, w.lastOfPrev.year + BuddhistEraOffset)
  }

  /** The Thai month names in calendar order. */
  function MonthName(m: int): string
    requires 1 <= m <= 12
  {
    ["มกราคม", "กุมภาพันธ์", "มีนาคม", "เมษายน", "พฤษภาคม", "มิถุนายน",
     "กรกฎาคม", "สิงหาคม", "กันยายน", "ตุลาคม", "พฤศจิกายน", "ธันวาคม"][m - 1]
  }

  /** The table keyed by the two-digit month has an entry for every month of
      the calendar, and it is that month's name. */
  lemma MonthNames(m: int)
    requires 1 <= m <= 12
    ensures MonthKey(m) in ThaiMonths && ThaiMonths[MonthKey(m)] == MonthName(m)
  {
    MonthKeyIn(m);
  }

  lemma MonthKeyIn(m: int)
    requires 1 <= m <= 12
    ensures MonthKey(m) in ThaiMonths
    ensures MonthKey(m) == ["01", "02", "03", "04", "05", "06", "07", "08", "09", "10", "11", "12"][m - 1]
  {
  }

  /** `msg_part4`'s and `msg_part5`'s listings: at most ten lines, then
      "and N more" exactly when more than ten were found. */
  const ListingLimit: int := 10

  function Truncated(lines: seq<Line>): (r: seq<Line>)
    ensures |r| == Min(|lines|, ListingLimit) + (if |lines| > ListingLimit then 1 else 0)
    ensures forall k :: 0 <= k < Min(|lines|, ListingLimit) ==> r[k] == lines[k]
    ensures |lines| > ListingLimit ==> r[|r| - 1] == AndMore(|lines| - ListingLimit)
    ensures |lines| <= ListingLimit ==> r == lines
  {
    lines[..Min(|lines|, ListingLimit)] + (if |lines| > ListingLimit then [AndMore(|lines| - ListingLimit)] else [])
  }

  // ===========================================================================
  // Part 1: medicines per category

  const DrugCategories: set<string> := {"ยาในบัญชี", "ยานอกบัญชี", "เวชภัณฑ์ยา"}
  const SupplyCategories: set<string> := {"เวชภัณฑ์/วัสดุ", "เวชภัณฑ์ที่มิใช่ยา"}

  function CountIn(meds: seq<Medicine>, cats: set<string>): nat {
    if meds == [] then 0
    else (if meds[0].category in cats then 1 else 0) + CountIn(meds[1..], cats)
  }

  lemma {:induction false} CountsWithinTable(meds: seq<Medicine>)
    ensures CountIn(meds, DrugCategories) + CountIn(meds, SupplyCategories) <= |meds|
  {
    if meds != [] {
      CountsWithinTable(meds[1..]);
      assert !(meds[0].category in DrugCategories && meds[0].category in SupplyCategories);
    }
  }

  function HoldingsSection(meds: seq<Medicine>): seq<Line> {
    if meds == [] then [Holdings(0, 0)]
    else [Holdings(CountIn(meds, DrugCategories), CountIn(meds, SupplyCategories))]
  }

  // ===========================================================================
  // Parts 2 and 3: top five received and dispensed names

  /** One joined ledger row of the wanted kind whose medicine has a name
      (grouping by `generic_name` drops rows without one). */
  datatype Movement = Movement(name: string, amount: int)

  function Abs(x: int): int {
    if x < 0 then -x else x
  }

  /** What one transaction adds to its name's total: a RECEIVE `qty_change` as
      recorded, a DISPENSE one made positive (line 60). */
  function Amount(t: Transaction, kind: Action): int {
    if kind == Dispense then Abs(t.qtyChange) else t.qtyChange
  }

  /** The row a transaction contributes to the grouping: none unless it is of
      the wanted kind and its medicine is among `meds` with a name. */
  function MovementOf(t: Transaction, meds: seq<Medicine>, kind: Action): seq<Movement> {
    if t.action != kind then []
    else match NameOf(meds, t.medicineId)
      case None => []
      case Some(n) => [Movement(n, Amount(t, kind))]
  }

  function Movements(tx: seq<Transaction>, meds: seq<Medicine>, kind: Action): (r: seq<Movement>)
    ensures |r| <= |tx|
  {
    if tx == [] then [] else MovementOf(tx[0], meds, kind) + Movements(tx[1..], meds, kind)
  }

  /** The sum the job reports for a name, read off the transactions directly:
      the amounts of the transactions of that kind whose medicine carries the name. */
  function RowSum(tx: seq<Transaction>, meds: seq<Medicine>, kind: Action, n: string): int {
    if tx == [] then 0
    else (if tx[0].action == kind && NameOf(meds, tx[0].medicineId) == Some(n) then Amount(tx[0], kind) else 0)
         + RowSum(tx[1..], meds, kind, n)
  }

  lemma {:induction false} TotalAppend(a: seq<Movement>, b: seq<Movement>, n: string)
    ensures TotalFor(a + b, n) == TotalFor(a, n) + TotalFor(b, n)
  {
    if a != [] {
      assert (a + b)[1..] == a[1..] + b;
      TotalAppend(a[1..], b, n);
    } else {
      assert a + b == b;
    }
  }

  /** A name's total over the joined rows is the sum of its transactions' amounts. */
  lemma {:induction false} MovementsTotal(tx: seq<Transaction>, meds: seq<Medicine>, kind: Action, n: string)
    ensures TotalFor(Movements(tx, meds, kind), n) == RowSum(tx, meds, kind, n)
  {
    if tx != [] {
      MovementsTotal(tx[1..], meds, kind, n);
      TotalAppend(MovementOf(tx[0], meds, kind), Movements(tx[1..], meds, kind), n);
    }
  }

  /** A name is moved exactly when some transaction of that kind has a medicine carrying it. */
  lemma {:induction false} MovedNamesAreTransactions(tx: seq<Transaction>, meds: seq<Medicine>, kind: Action)
    ensures forall n :: n in MovedNames(Movements(tx, meds, kind))
                        <==> exists t :: t in tx && t.action == kind && NameOf(meds, t.medicineId) == Some(n)
  {
    if tx != [] {
      MovedNamesAreTransactions(tx[1..], meds, kind);
      var here, rest := MovementOf(tx[0], meds, kind), Movements(tx[1..], meds, kind);
      assert MovedNames(here + rest) == MovedNames(here) + MovedNames(rest);
      forall n ensures n in MovedNames(here) <==> tx[0].action == kind && NameOf(meds, tx[0].medicineId) == Some(n) {
        if n in MovedNames(here) {
          assert here[0] in here;
        }
      }
      assert forall t :: t in tx <==> t == tx[0] || t in tx[1..];
    }
  }

  function MovedNames(moves: seq<Movement>): set<string> {
    set x | x in moves :: x.name
  }

  /** The group keys, each once. */
  function DistinctNames(moves: seq<Movement>): (names: seq<string>)
    ensures forall n :: n in names <==> n in MovedNames(moves)
    ensures forall i, j :: 0 <= i < j < |names| ==> names[i] != names[j]
  {
    if moves == [] then []
    else
      var init := moves[..|moves| - 1];
      var last := moves[|moves| - 1];
      assert moves == init + [last];
      var rest := DistinctNames(init);
      assert MovedNames(moves) == MovedNames(init) + {last.name};
      if last.name in rest then rest else rest + [last.name]
  }

  function TotalFor(moves: seq<Movement>, name: string): int {
    if moves == [] then 0
    else (if moves[0].name == name then moves[0].amount else 0) + TotalFor(moves[1..], name)
  }

  /** Code-point lexicographic order, the order Python compares strings in. */
  predicate LexLess(a: string, b: string) {
    if a == [] then b != []
    else if b == [] then false
    else a[0] < b[0] || (a[0] == b[0] && LexLess(a[1..], b[1..]))
  }

  /** The group's index after `groupby(...).reset_index()`, which orders the keys:
      the number of keys that sort before it. */
  function Position(names: seq<string>, n: string): nat {
    |set m | m in names && LexLess(m, n)|
  }

  datatype Group = Group(name: string, total: int, position: nat)

  function Groups(moves: seq<Movement>): (gs: seq<Group>)
    ensures |gs| == |DistinctNames(moves)|
  {
    var names := DistinctNames(moves);
    seq(|names|, i requires 0 <= i < |names| => Group(names[i], TotalFor(moves, names[i]), Position(names, names[i])))
  }

  function LargerTotal(a: Group, b: Group): bool {
    a.total >= b.total
  }

  lemma LargerTotalIsTotal()
    ensures Sorting.TotalPreorder(LargerTotal)
  {
  }

  /** `.sort_values(by='qty_change', ascending=False).head(5)` */
  const TopCount: int := 5

  function Ranking(moves: seq<Movement>): seq<Group> {
    LargerTotalIsTotal();
    var sorted := Sorting.SortBy(Groups(moves), LargerTotal);
    sorted[..Min(|sorted|, TopCount)]
  }

  lemma {:induction false} LexLessIrreflexive(a: string)
    ensures !LexLess(a, a)
  {
    if a != [] {
      LexLessIrreflexive(a[1..]);
    }
  }

  lemma {:induction false} LexLessTransitive(a: string, b: string, c: string)
    requires LexLess(a, b) && LexLess(b, c)
    ensures LexLess(a, c)
  {
    if a != [] && b != [] && c != [] && a[0] == b[0] && b[0] == c[0] {
      LexLessTransitive(a[1..], b[1..], c[1..]);
    }
  }

  lemma {:induction false} LexLessTotal(a: string, b: string)
    ensures a == b || LexLess(a, b) || LexLess(b, a)
  {
    if a != [] && b != [] && a[0] == b[0] {
      LexLessTotal(a[1..], b[1..]);
      if a[1..] == b[1..] {
        assert a == [a[0]] + a[1..] && b == [b[0]] + b[1..];
      }
    }
  }

  lemma SubsetCard(a: set<string>, b: set<string>)
    requires a <= b
    ensures |a| <= |b|
  {
    assert b == a + (b - a);
  }

  lemma {:induction false} SetOfSeqBound(names: seq<string>)
    ensures |set m | m in names| <= |names|
  {
    if names != [] {
      SetOfSeqBound(names[1..]);
      assert (set m | m in names) == (set m | m in names[1..]) + {names[0]};
    }
  }

  /** Distinct names get distinct positions, all below the number of groups:
      the printed numbers are the alphabetical ranks 1..k of the names. */
  lemma PositionsAreRanks(names: seq<string>, a: string, b: string)
    requires forall i, j :: 0 <= i < j < |names| ==> names[i] != names[j]
    requires a in names && b in names
    ensures Position(names, a) < |names|
    ensures a != b ==> Position(names, a) != Position(names, b)
  {
    var below := set m | m in names && LexLess(m, a);
    var all := set m | m in names;
    LexLessIrreflexive(a);
    SubsetCard(below, all - {a});
    SetOfSeqBound(names);
    if a != b {
      LexLessTotal(a, b);
      var belowB := set m | m in names && LexLess(m, b);
      if LexLess(a, b) {
        forall m | m in below ensures m in belowB {
          LexLessTransitive(m, a, b);
        }
        SubsetCard(below, belowB - {a});
      } else {
        forall m | m in belowB ensures m in below {
          LexLessTransitive(m, b, a);
        }
        LexLessIrreflexive(b);
        SubsetCard(belowB, below - {b});
      }
    }
  }

  /** The groups are the distinct names moved, each with the sum of its amounts. */
  lemma GroupsFacts(moves: seq<Movement>)
    ensures var gs := Groups(moves);
      && (forall g :: g in gs ==> g.name in MovedNames(moves) && g.total == TotalFor(moves, g.name))
      && (forall n :: n in MovedNames(moves) ==> exists g :: g in gs && g.name == n)
      && (forall i, j :: 0 <= i < j < |gs| ==> gs[i].name != gs[j].name && gs[i].position != gs[j].position)
      && (forall g :: g in gs ==> g.position < |gs|)
  {
    var names := DistinctNames(moves);
    var gs := Groups(moves);
    forall n | n in MovedNames(moves) ensures exists g :: g in gs && g.name == n {
      var i :| 0 <= i < |names| && names[i] == n;
      assert gs[i] in gs;
    }
    forall i, j | 0 <= i < j < |gs| ensures gs[i].position != gs[j].position {
      PositionsAreRanks(names, names[i], names[j]);
    }
    forall g | g in gs ensures g.position < |gs| {
      var i :| 0 <= i < |gs| && gs[i] == g;
      PositionsAreRanks(names, names[i], names[i]);
    }
  }

  /** The top five: in descending order of total, drawn from the groups, and no
      group left out has a larger total than any ranked one. */
  lemma RankingFacts(moves: seq<Movement>)
    ensures var gs := Groups(moves); var r := Ranking(moves);
      && |r| == Min(|gs|, TopCount)
      && (forall i, j :: 0 <= i < j < |r| ==> r[i].total >= r[j].total)
      && (forall g :: g in r ==> g in gs)
      && multiset(r) <= multiset(gs)
      && (forall g :: g in gs && g !in r ==> |r| == TopCount && forall i :: 0 <= i < |r| ==> r[i].total >= g.total)
  {
    LargerTotalIsTotal();
    var gs := Groups(moves);
    TopOfSorted(gs, Sorting.SortBy(gs, LargerTotal));
  }

  /** Each ranked name's total is the sum of the amounts of its transactions of
      that kind, and each ranked name has at least one such transaction. */
  lemma RankedTotals(tx: seq<Transaction>, meds: seq<Medicine>, kind: Action)
    ensures forall g :: g in Ranking(Movements(tx, meds, kind)) ==>
      && g.total == RowSum(tx, meds, kind, g.name)
      && exists t :: t in tx && t.action == kind && NameOf(meds, t.medicineId) == Some(g.name)
  {
    var moves := Movements(tx, meds, kind);
    RankingFacts(moves);
    GroupsFacts(moves);
    MovedNamesAreTransactions(tx, meds, kind);
    forall g | g in Ranking(moves) ensures g.total == RowSum(tx, meds, kind, g.name) {
      MovementsTotal(tx, meds, kind, g.name);
    }
  }

  /** The first five of a descending sort of `gs`: each is one of `gs`, and
      every group of `gs` left out comes after all five. */
  lemma TopOfSorted(gs: seq<Group>, sorted: seq<Group>)
    requires multiset(sorted) == multiset(gs) && Sorting.SortedBy(sorted, LargerTotal)
    ensures var r := sorted[..Min(|sorted|, TopCount)];
      && |r| == Min(|gs|, TopCount)
      && (forall i, j :: 0 <= i < j < |r| ==> r[i].total >= r[j].total)
      && (forall g :: g in r ==> g in gs)
      && multiset(r) <= multiset(gs)
      && (forall g :: g in gs && g !in r ==> |r| == TopCount && forall i :: 0 <= i < |r| ==> r[i].total >= g.total)
  {
    var r := sorted[..Min(|sorted|, TopCount)];
    assert |sorted| == |multiset(sorted)| == |gs|;
    PrefixWithin(sorted, gs, |r|);
    forall g | g in gs && g !in r
      ensures |r| == TopCount && forall i :: 0 <= i < |r| ==> r[i].total >= g.total
    {
      assert g in multiset(sorted);
      AfterPrefix(sorted, |r|, g);
    }
  }

  /** A prefix of a permutation of `gs` is a sub-multiset of `gs`, so it holds
      only groups of `gs`. */
  lemma PrefixWithin(s: seq<Group>, gs: seq<Group>, k: nat)
    requires k <= |s| && multiset(s) == multiset(gs)
    ensures multiset(s[..k]) <= multiset(gs)
    ensures forall g :: g in s[..k] ==> g in gs
  {
    assert s == s[..k] + s[k..];
    assert multiset(s) == multiset(s[..k]) + multiset(s[k..]);
    forall g | g in s[..k] ensures g in gs {
      assert g in multiset(s[..k]);
      assert g in multiset(gs);
    }
  }

  /** An element of a descending sequence that is not among its first `k`
      comes after all of them: there are `k` of them and none has a smaller total. */
  lemma AfterPrefix(s: seq<Group>, k: nat, g: Group)
    requires k <= |s| && Sorting.SortedBy(s, LargerTotal) && g in s && g !in s[..k]
    ensures k < |s| && forall i :: 0 <= i < k ==> s[i].total >= g.total
  {
    var j :| 0 <= j < |s| && s[j] == g;
  }

  /** Where a received or dispensed name's unit comes from: the first medicine
      with that generic name, or nothing. */
  function UnitOf(meds: seq<Medicine>, name: string): string {
    if meds == [] then ""
    else if meds[0].genericName == name then meds[0].unit
    else UnitOf(meds[1..], name)
  }

  /** One ranking line: its printed number, the group's name and total, and the unit. */
  function RankLine(number: nat, g: Group, meds: seq<Medicine>, incoming: bool): Line {
    if incoming then Received(number, g.name, g.total, UnitOf(meds, g.name))
    else Dispensed(number, g.name, g.total, UnitOf(meds, g.name))
  }

  /** The ranking lines as the job prints them: `idx + 1`, where `idx` is the
      row label `iterrows` yields, which after `reset_index` and `sort_values`
      is still the group's alphabetical position, not its place in the ranking. */
  function RankLinesAsWritten(r: seq<Group>, meds: seq<Medicine>, incoming: bool): (lines: seq<Line>)
    ensures |lines| == |r|
    ensures forall k :: 0 <= k < |r| ==>
      && (if incoming then lines[k].Received? else lines[k].Dispensed?)
      && lines[k].number == r[k].position + 1 && lines[k].name == r[k].name && lines[k].total == r[k].total
  {
    seq(|r|, k requires 0 <= k < |r| => RankLine(r[k].position + 1, r[k], meds, incoming))
  }

  /** The ranking lines as evidently intended, and as this model prints them:
      numbered 1, 2, ... in ranking order. */
  function RankLines(r: seq<Group>, meds: seq<Medicine>, incoming: bool): (lines: seq<Line>)
    ensures |lines| == |r|
  {
    seq(|r|, k requires 0 <= k < |r| => RankLine(k + 1, r[k], meds, incoming))
  }

  /** The k-th line carries number k + 1 and the k-th group's name and total. */
  lemma RankLinesNumbered(r: seq<Group>, meds: seq<Medicine>, incoming: bool)
    ensures var lines := RankLines(r, meds, incoming);
      forall k :: 0 <= k < |r| ==>
        && lines[k].number == k + 1
        && lines[k].name == r[k].name && lines[k].total == r[k].total
        && (lines[k].Received? <==> incoming)
  {
  }

  /** Two names, "a" moved once and "b" five times: "b" is ranked first, but
      the job prints it as number 2. */
  lemma PrintedNumberIsNotRank()
    ensures var r := Ranking([Movement("a", 1), Movement("b", 5)]);
      && |r| == 2 && r[0].name == "b"
      && RankLinesAsWritten(r, [], true)[0].number == 2
      && RankLines(r, [], true)[0].number == 1
  {
    ExampleRanking();
  }

  lemma ExampleRanking()
    ensures Ranking([Movement("a", 1), Movement("b", 5)]) == [Group("b", 5, 1), Group("a", 1, 0)]
  {
    var gs := Groups([Movement("a", 1), Movement("b", 5)]);
    ExampleGroups();
    LargerTotalIsTotal();
    assert Sorting.SortBy(gs[1..], LargerTotal) == [Group("b", 5, 1)];
    assert Sorting.SortBy(gs, LargerTotal) == [Group("b", 5, 1), Group("a", 1, 0)];
  }

  /** The example's groups, in alphabetical order with their positions. */
  lemma ExampleGroups()
    ensures Groups([Movement("a", 1), Movement("b", 5)]) == [Group("a", 1, 0), Group("b", 5, 1)]
  {
    var moves := [Movement("a", 1), Movement("b", 5)];
    ExampleNames();
    assert TotalFor(moves, "a") == 1;
    assert TotalFor(moves, "b") == 5;
    ExamplePositions();
  }

  lemma ExampleNames()
    ensures DistinctNames([Movement("a", 1), Movement("b", 5)]) == ["a", "b"]
  {
    var moves := [Movement("a", 1), Movement("b", 5)];
    assert moves[..1] == [Movement("a", 1)];
    assert DistinctNames([Movement("a", 1)]) == ["a"];
  }

  lemma ExamplePositions()
    ensures Position(["a", "b"], "a") == 0 && Position(["a", "b"], "b") == 1
  {
    assert !LexLess("b", "a") && !LexLess("a", "a") && !LexLess("b", "b");
    assert LexLess("a", "b");
    assert (set m | m in ["a", "b"] && LexLess(m, "a")) == {};
    assert (set m | m in ["a", "b"] && LexLess(m, "b")) == {"a"};
  }

  /** `msg_part2` (incoming) or `msg_part3`: a heading, then "no movement" when
      either table is empty, otherwise the ranking or "nothing of this kind". */
  function MovementSection(tx: seq<Transaction>, meds: seq<Medicine>, incoming: bool): seq<Line> {
    var heading := if incoming then ReceiveHeading else DispenseHeading;
    if tx == [] || meds == [] then [heading, NoMovement]
    else
      var r := Ranking(Movements(tx, meds, if incoming then Receive else Dispense));
      if r != [] then [heading] + RankLines(r, meds, incoming)
      else [heading, if incoming then NothingReceived else NothingDispensed]
  }

  // ===========================================================================
  // Part 4: medicines at or below their reorder point

  /** A medicine's stock: the sum over all its rows, empty ones included, and
      zero when it has none. */
  function MedicineStock(inv: seq<InventoryRow>, id: string): int {
    if inv == [] then 0
    else (if inv[0].medicineId == id then inv[0].qty else 0) + MedicineStock(inv[1..], id)
  }

  lemma {:induction false} NoRowsNoStock(inv: seq<InventoryRow>, id: string)
    requires forall r :: r in inv ==> r.medicineId != id
    ensures MedicineStock(inv, id) == 0
  {
    if inv != [] {
      NoRowsNoStock(inv[1..], id);
    }
  }

  function LowStock(meds: seq<Medicine>, inv: seq<InventoryRow>): seq<Medicine> {
    Filter(meds, (m: Medicine) => MedicineStock(inv, m.id) <= m.minStock)
  }

  function LowStockLine(m: Medicine, inv: seq<InventoryRow>): Line {
    LowStockItem(m.genericName, MedicineStock(inv, m.id), m.minStock)
  }

  function LowStockLines(low: seq<Medicine>, inv: seq<InventoryRow>): (lines: seq<Line>)
    ensures |lines| == |low|
  {
    seq(|low|, k requires 0 <= k < |low| => LowStockLine(low[k], inv))
  }

  function LowStockSection(meds: seq<Medicine>, inv: seq<InventoryRow>): seq<Line> {
    var low := LowStock(meds, inv);
    [LowStockHeading(|low|, CountIn(low, DrugCategories), CountIn(low, SupplyCategories))]
      + (if |low| > 0 then Truncated(LowStockLines(low, inv)) else [StockSufficient])
  }

  /** A medicine is flagged exactly when its stock is at most its reorder point;
      a medicine without any lot counts as zero; the flagged drugs and supplies
      together are at most all flagged medicines. */
  lemma LowStockFacts(meds: seq<Medicine>, inv: seq<InventoryRow>)
    ensures var low := LowStock(meds, inv);
      && (forall m :: m in low <==> m in meds && MedicineStock(inv, m.id) <= m.minStock)
      && (forall m :: m in meds && (forall r :: r in inv ==> r.medicineId != m.id) ==> (m in low <==> 0 <= m.minStock))
      && CountIn(low, DrugCategories) + CountIn(low, SupplyCategories) <= |low|
  {
    var low := LowStock(meds, inv);
    forall m | m in meds && (forall r :: r in inv ==> r.medicineId != m.id)
      ensures m in low <==> 0 <= m.minStock
    {
      NoRowsNoStock(inv, m.id);
    }
    CountsWithinTable(low);
  }

  // ===========================================================================
  // Part 5: lots expiring within 90 days

  const ExpiryHorizon: int := 90

  predicate HasStock(r: InventoryRow) {
    r.qty > 0
  }

  function NearExpiryLots(inv: seq<InventoryRow>, today: int): seq<InventoryRow> {
    Filter(Filter(inv, HasStock), (r: InventoryRow) => r.expDate <= today + ExpiryHorizon)
  }

  function ExpiryLine(r: InventoryRow, meds: seq<Medicine>): Line {
    ExpiringLot(NameOf(meds, r.medicineId), r.qty, r.expDate)
  }

  function ExpiryLines(lots: seq<InventoryRow>, meds: seq<Medicine>): (lines: seq<Line>)
    ensures |lines| == |lots|
  {
    seq(|lots|, k requires 0 <= k < |lots| => ExpiryLine(lots[k], meds))
  }

  function ExpirySection(inv: seq<InventoryRow>, meds: seq<Medicine>, today: int): seq<Line> {
    if inv == [] then [ExpiryHeading, NoStockData]
    else
      var near := NearExpiryLots(inv, today);
      if Filter(inv, HasStock) == [] || near == [] then [ExpiryHeading, NothingExpiring]
      else [ExpiryHeading, ExpiringLots(|near|)] + Truncated(ExpiryLines(near, meds))
  }

  /** A lot is reported exactly when it still holds stock and expires within 90 days. */
  lemma NearExpiryFacts(inv: seq<InventoryRow>, today: int)
    ensures var near := NearExpiryLots(inv, today);
      && |near| <= |inv|
      && forall r :: r in near <==> r in inv && r.qty > 0 && r.expDate <= today + ExpiryHorizon
  {
  }

  /** Every lot the part counts is listed, in table order, up to ten, each
      with its remaining quantity, expiry date and the name of its medicine
      among the active ones (none when it has no active medicine). */
  lemma ExpiryListsNearLots(inv: seq<InventoryRow>, meds: seq<Medicine>, today: int)
    requires NearExpiryLots(inv, today) != []
    ensures var near := NearExpiryLots(inv, today);
      var part := ExpirySection(inv, meds, today);
      && |part| >= 3 && part[1] == ExpiringLots(|near|)
      && forall k :: 0 <= k < Min(|near|, ListingLimit) ==>
           part[k + 2] == ExpiringLot(NameOf(meds, near[k].medicineId), near[k].qty, near[k].expDate)
  {
    var near := NearExpiryLots(inv, today);
    assert near[0] in near;
    assert inv != [] && Filter(inv, HasStock) != [];
    var lines := ExpiryLines(near, meds);
    var listed := Truncated(lines);
    var part := [ExpiryHeading, ExpiringLots(|near|)] + listed;
    assert ExpirySection(inv, meds, today) == part;
    forall k | 0 <= k < Min(|near|, ListingLimit)
      ensures part[k + 2] == ExpiringLot(NameOf(meds, near[k].medicineId), near[k].qty, near[k].expDate)
    {
      assert part[k + 2] == listed[k] == lines[k];
    }
  }

  /** Line 111 of the job selects the `id` and `generic_name` columns of the
      active medicines; with no active medicine that frame has no columns, the
      selection raises, and the job stops before anything is sent. */
  predicate ExpiryListingFails(inv: seq<InventoryRow>, meds: seq<Medicine>, today: int) {
    meds == [] && NearExpiryLots(inv, today) != []
  }

  /** Part 5 as written: None where the selection raises. */
  function ExpirySectionAsWritten(inv: seq<InventoryRow>, meds: seq<Medicine>, today: int): Option<seq<Line>> {
    if ExpiryListingFails(inv, meds, today) then None
    else Some(ExpirySection(inv, meds, today))
  }

  /** One lot of a medicine that is no longer active, expiring in ten days: the
      job as written fails, while the listing names the lot without a name. */
  lemma ExpiryListingWithoutMedicines()
    ensures var inv := [InventoryRow(1, "m1", "L1", 0, 10, 5)];
      && ExpirySectionAsWritten(inv, [], 0).None?
      && ExpirySection(inv, [], 0) == [ExpiryHeading, ExpiringLots(1), ExpiringLot(None, 5, 10)]
  {
    var inv := [InventoryRow(1, "m1", "L1", 0, 10, 5)];
    assert Filter(inv, HasStock) == inv;
    assert NearExpiryLots(inv, 0) == inv;
  }

  // ===========================================================================
  // The whole report

  /** The report for the tables as they stand on `today`; None where the
      reporting window cannot be formed. */
  function Report(medicines: seq<Medicine>, inventory: seq<InventoryRow>, transactions: seq<Transaction>,
                  today: Calendar.Date): Option<seq<Line>>
    requires Calendar.Valid(today)
  {
    match ReportWindow(today)
    case None => None
    case Some(w) =>
      var meds := ActiveMedicines(medicines);
      var tx := WindowTransactions(transactions, w);
      Some(Assemble(TitleLine(w), HoldingsSection(meds), MovementSection(tx, meds, true),
                    MovementSection(tx, meds, false), LowStockSection(meds, inventory),
                    ExpirySection(inventory, meds, Calendar.Ordinal(today))))
  }

  /** `report_title + msg_part1 + ... + msg_part5` */
  function Assemble(title: Line, part1: seq<Line>, part2: seq<Line>, part3: seq<Line>,
                    part4: seq<Line>, part5: seq<Line>): seq<Line> {
    [title] + part1 + part2 + part3 + part4 + part5
  }

  /** The first lines of an assembled message: the title, a one-line part 1,
      then the start of part 2 and part 3. */
  lemma AssembleFront(title: Line, part1: seq<Line>, part2: seq<Line>, part3: seq<Line>,
                      part4: seq<Line>, part5: seq<Line>)
    requires |part1| == 1 && |part2| >= 1
    ensures var m := Assemble(title, part1, part2, part3, part4, part5);
      && |m| >= 3 && m[0] == title && m[1] == part1[0] && m[2] == part2[0]
      && (|part2| == 2 && |part3| >= 2 ==> |m| >= 6 && m[3] == part2[1] && m[4] == part3[0] && m[5] == part3[1])
  {
  }

  /** The last line of an assembled message is the last line of part 5. */
  lemma AssembleLast(title: Line, part1: seq<Line>, part2: seq<Line>, part3: seq<Line>,
                     part4: seq<Line>, part5: seq<Line>)
    requires |part5| >= 1
    ensures var m := Assemble(title, part1, part2, part3, part4, part5);
      m[|m| - 1] == part5[|part5| - 1]
  {
  }

  /** The title names the previous calendar month in Thai and its year in the
      Buddhist Era. */
  lemma TitleNamesPreviousMonth(today: Calendar.Date)
    requires Calendar.Valid(today) && ReportWindow(today).Some?
    ensures var (py, pm) := PrevMonthOf(today.year, today.month);
      && 1 <= pm <= 12
      && TitleLine(ReportWindow(today).value) == Title(Some(MonthName(pm)), py + BuddhistEraOffset)
  {
    ReportWindowFacts(today);
    MonthNames(ReportWindow(today).value.lastOfPrev.month);
  }

  /** The first three lines: the title, the holdings counts of the active
      medicines, and the received-items heading. */
  lemma ReportLeadingLines(medicines: seq<Medicine>, inventory: seq<InventoryRow>, transactions: seq<Transaction>,
                           today: Calendar.Date)
    requires Calendar.Valid(today) && ReportWindow(today).Some?
    ensures var msg := Report(medicines, inventory, transactions, today);
      var meds := ActiveMedicines(medicines);
      && msg.Some? && |msg.value| >= 4
      && msg.value[0] == TitleLine(ReportWindow(today).value)
      && msg.value[1] == Holdings(CountIn(meds, DrugCategories), CountIn(meds, SupplyCategories))
      && msg.value[2] == ReceiveHeading
  {
    var w := ReportWindow(today).value;
    var meds := ActiveMedicines(medicines);
    var tx := WindowTransactions(transactions, w);
    var holdings := HoldingsSection(meds);
    assert holdings == [Holdings(CountIn(meds, DrugCategories), CountIn(meds, SupplyCategories))];
    MovementSectionOpens(tx, meds, true);
    AssembleFront(TitleLine(w), holdings, MovementSection(tx, meds, true), MovementSection(tx, meds, false),
                  LowStockSection(meds, inventory), ExpirySection(inventory, meds, Calendar.Ordinal(today)));
  }

  /** A ranking part has its heading and at least one line under it. */
  lemma MovementSectionOpens(tx: seq<Transaction>, meds: seq<Medicine>, incoming: bool)
    ensures var part := MovementSection(tx, meds, incoming);
      |part| >= 2 && part[0] == (if incoming then ReceiveHeading else DispenseHeading)
  {
    if tx != [] && meds != [] {
      var r := Ranking(Movements(tx, meds, if incoming then Receive else Dispense));
      if r != [] {
        assert |RankLines(r, meds, incoming)| >= 1;
      }
    }
  }

  /** There is a message except in January of year 1, where the job fails
      computing the previous month. */
  lemma ReportExists(medicines: seq<Medicine>, inventory: seq<InventoryRow>, transactions: seq<Transaction>,
                     today: Calendar.Date)
    requires Calendar.Valid(today)
    ensures Report(medicines, inventory, transactions, today).None?
            <==> today.year == Calendar.MinYear && today.month == 1
  {
    ReportWindowFacts(today);
  }

  /** The message is titled with the Thai name and Buddhist year of the previous
      month, then counts the active drugs and supplies, then opens the
      received-items ranking. */
  lemma ReportOpening(medicines: seq<Medicine>, inventory: seq<InventoryRow>, transactions: seq<Transaction>,
                      today: Calendar.Date)
    requires Calendar.Valid(today) && ReportWindow(today).Some?
    ensures var msg := Report(medicines, inventory, transactions, today);
      var (py, pm) := PrevMonthOf(today.year, today.month);
      var meds := ActiveMedicines(medicines);
      && msg.Some? && |msg.value| >= 4
      && 1 <= pm <= 12
      && msg.value[0] == Title(Some(MonthName(pm)), py + BuddhistEraOffset)
      && msg.value[1] == Holdings(CountIn(meds, DrugCategories), CountIn(meds, SupplyCategories))
      && msg.value[2] == ReceiveHeading
  {
    TitleNamesPreviousMonth(today);
    ReportLeadingLines(medicines, inventory, transactions, today);
  }

  /** With no active medicine or no transaction in the window, both rankings
      say only that nothing moved. */
  lemma ReportWithoutMovement(medicines: seq<Medicine>, inventory: seq<InventoryRow>, transactions: seq<Transaction>,
                              today: Calendar.Date)
    requires Calendar.Valid(today) && ReportWindow(today).Some?
    requires ActiveMedicines(medicines) == [] || WindowTransactions(transactions, ReportWindow(today).value) == []
    ensures var msg := Report(medicines, inventory, transactions, today);
      && msg.Some? && |msg.value| >= 6
      && msg.value[2] == ReceiveHeading && msg.value[3] == NoMovement
      && msg.value[4] == DispenseHeading && msg.value[5] == NoMovement
  {
    var w := ReportWindow(today).value;
    var meds := ActiveMedicines(medicines);
    var tx := WindowTransactions(transactions, w);
    var holdings := HoldingsSection(meds);
    assert |holdings| == 1;
    assert MovementSection(tx, meds, true) == [ReceiveHeading, NoMovement];
    assert MovementSection(tx, meds, false) == [DispenseHeading, NoMovement];
    AssembleFront(TitleLine(w), holdings, MovementSection(tx, meds, true), MovementSection(tx, meds, false),
                  LowStockSection(meds, inventory), ExpirySection(inventory, meds, Calendar.Ordinal(today)));
  }

  /** The message ends with the expiry part, whose last line says "no stock
      data" exactly when the inventory table is empty. */
  lemma ReportClosing(medicines: seq<Medicine>, inventory: seq<InventoryRow>, transactions: seq<Transaction>,
                      today: Calendar.Date)
    requires Calendar.Valid(today) && ReportWindow(today).Some?
    ensures var msg := Report(medicines, inventory, transactions, today);
      msg.Some? && (msg.value[|msg.value| - 1] == NoStockData <==> inventory == [])
  {
    var w := ReportWindow(today).value;
    var meds := ActiveMedicines(medicines);
    var tx := WindowTransactions(transactions, w);
    var part := ExpirySection(inventory, meds, Calendar.Ordinal(today));
    ExpiryClosing(inventory, meds, Calendar.Ordinal(today));
    AssembleLast(TitleLine(w), HoldingsSection(meds), MovementSection(tx, meds, true),
                 MovementSection(tx, meds, false), LowStockSection(meds, inventory), part);
  }

  /** The expiry part's last line is "no stock data" exactly when the inventory
      table is empty; otherwise it is "nothing expiring", a lot or "and N more". */
  lemma ExpiryClosing(inv: seq<InventoryRow>, meds: seq<Medicine>, today: int)
    ensures var part := ExpirySection(inv, meds, today);
      |part| >= 2 && (part[|part| - 1] == NoStockData <==> inv == [])
  {
    var part := ExpirySection(inv, meds, today);
    if inv != [] {
      var near := NearExpiryLots(inv, today);
      if Filter(inv, HasStock) != [] && near != [] {
        var lines := ExpiryLines(near, meds);
        assert part == [ExpiryHeading, ExpiringLots(|near|)] + Truncated(lines);
        if |lines| > ListingLimit {
          assert part[|part| - 1] == AndMore(|lines| - ListingLimit);
        } else {
          assert part[|part| - 1] == lines[|lines| - 1] == ExpiryLine(near[|near| - 1], meds);
        }
      }
    }
  }

  /** The ranking loop of parts 2 and 3: one line per group, in ranking order. */
  method ListRanking(heading: Line, ranked: seq<Group>, meds: seq<Medicine>, incoming: bool) returns (part: seq<Line>)
    ensures part == [heading] + RankLines(ranked, meds, incoming)
  {
    part := [heading];
    for k := 0 to |ranked|
      invariant part == [heading] + RankLines(ranked[..k], meds, incoming)
    {
      assert RankLines(ranked[..k + 1], meds, incoming)
          == RankLines(ranked[..k], meds, incoming) + [RankLine(k + 1, ranked[k], meds, incoming)];
      part := part + [RankLine(k + 1, ranked[k], meds, incoming)];
    }
    assert ranked[..|ranked|] == ranked;
  }

  /** Parts 2 and 3 as the job writes them. */
  method ListMovements(tx: seq<Transaction>, meds: seq<Medicine>, incoming: bool) returns (part: seq<Line>)
    ensures part == MovementSection(tx, meds, incoming)
  {
    var heading := if incoming then ReceiveHeading else DispenseHeading;
    if |tx| == 0 || |meds| == 0 {
      return [heading, NoMovement];
    }
    var ranked := Ranking(Movements(tx, meds, if incoming then Receive else Dispense));
    if |ranked| == 0 {
      return [heading, if incoming then NothingReceived else NothingDispensed];
    }
    part := ListRanking(heading, ranked, meds, incoming);
  }

  /** The listing loop of parts 4 and 5: the first ten lines after the heading,
      then "and N more" when there are more than ten. */
  method ListTruncated(heading: seq<Line>, lines: seq<Line>) returns (part: seq<Line>)
    ensures part == heading + Truncated(lines)
  {
    part := heading;
    for k := 0 to Min(|lines|, ListingLimit)
      invariant part == heading + lines[..k]
    {
      part := part + [lines[k]];
    }
    if |lines| > ListingLimit {
      part := part + [AndMore(|lines| - ListingLimit)];
    }
  }

  /** Part 4 as the job writes it. */
  method ListLowStock(meds: seq<Medicine>, inv: seq<InventoryRow>) returns (part: seq<Line>)
    ensures part == LowStockSection(meds, inv)
  {
    var low := LowStock(meds, inv);
    var heading := LowStockHeading(|low|, CountIn(low, DrugCategories), CountIn(low, SupplyCategories));
    if |low| == 0 {
      return [heading, StockSufficient];
    }
    part := ListTruncated([heading], LowStockLines(low, inv));
  }

  /** Part 5 as the job writes it. */
  method ListExpiring(inv: seq<InventoryRow>, meds: seq<Medicine>, today: int) returns (part: seq<Line>)
    ensures part == ExpirySection(inv, meds, today)
  {
    if |inv| == 0 {
      return [ExpiryHeading, NoStockData];
    }
    var active := Filter(inv, HasStock);
    var near := NearExpiryLots(inv, today);
    if |active| == 0 || |near| == 0 {
      return [ExpiryHeading, NothingExpiring];
    }
    part := ListTruncated([ExpiryHeading, ExpiringLots(|near|)], ExpiryLines(near, meds));
  }

  /** `generate_and_send_report` up to the push: the message, part by part. */
  method GenerateReport(medicines: seq<Medicine>, inventory: seq<InventoryRow>, transactions: seq<Transaction>,
                        today: Calendar.Date) returns (message: Option<seq<Line>>)
    requires Calendar.Valid(today)
    ensures message == Report(medicines, inventory, transactions, today)
  {
    var window := ReportWindow(today);
    if window.None? {
      return None;
    }
    var w := window.value;
    var meds := ActiveMedicines(medicines);
    var tx := WindowTransactions(transactions, w);
    var part2 := ListMovements(tx, meds, true);
    var part3 := ListMovements(tx, meds, false);
    var part4 := ListLowStock(meds, inventory);
    var part5 := ListExpiring(inventory, meds, Calendar.Ordinal(today));
    message := Some(Assemble(TitleLine(w), HoldingsSection(meds), part2, part3, part4, part5));
  }
}
