/**
 * The local record store: session types, sessions, the project cache,
 * invoices with their line items and the set of unlocked achievements.
 * Tables are sequences of records; row ids come from counters.
 */
module Storage {
  import W = Wrappers
  import Text
  import opened Calendar
  import opened Models
  import opened Logic
  import Analytics

  datatype SessionType = SessionType(id: int, name: string, color: string, hourlyRate: W.Option<real>)

  /** A row of the sessions table; the pay type is the stored text. */
  datatype StoredSession = StoredSession(
    id: int,
    sessionTypeId: int,
    date: Date,
    projectName: string,
    hours: real,
    description: W.Option<string>,
    payType: W.Option<string>,
    hourlyRate: W.Option<real>,
    fixedAmount: W.Option<real>)

  /** The input of `add_session`. */
  datatype NewSession = NewSession(
    sessionTypeId: int,
    date: Date,
    projectName: string,
    hours: real,
    description: W.Option<string>,
    payType: W.Option<PayType>,
    hourlyRate: W.Option<real>,
    fixedAmount: W.Option<real>)

  datatype ProjectEntry = ProjectEntry(projectName: string, sessionTypeId: int, lastUsed: Date, useCount: nat)

  datatype InvoiceItem = InvoiceItem(
    id: int,
    invoiceId: int,
    sessionId: W.Option<int>,
    description: string,
    hours: real,
    rate: real,
    amount: real)

  datatype Invoice = Invoice(
    id: int,
    invoiceNumber: string,
    clientName: string,
    clientEmail: W.Option<string>,
    createdDate: Date,
    dueDate: string,
    status: InvoiceStatus,
    subtotal: real,
    taxRate: W.Option<real>,
    taxAmount: real,
    total: real,
    notes: W.Option<string>)

  /** The input of `create_invoice`. */
  datatype NewInvoice = NewInvoice(
    clientName: string,
    clientEmail: W.Option<string>,
    dueDate: string,
    taxRate: W.Option<real>,
    notes: W.Option<string>,
    sessionIds: seq<int>)

  // ---------- Reading sessions back ----------

  /** The type with that id, first match (the LEFT JOIN). */
  function FindType(types: seq<SessionType>, id: int): (r: W.Option<SessionType>)
    ensures r.Some? ==> r.value in types && r.value.id == id
    ensures r.None? ==> forall t :: t in types ==> t.id != id
    decreases |types|
  {
    if types == [] then W.None
    else if types[0].id == id then W.Some(types[0])
    else FindType(types[1..], id)
  }

  function TypeName(types: seq<SessionType>, id: int): W.Option<string> {
    match FindType(types, id)
    case Some(t) => W.Some(t.name)
    case None => W.None
  }

  /** `pay_type_str.and_then(|s| PayType::from_string(&s).ok())`. */
  function ParsePayType(text: W.Option<string>): W.Option<PayType> {
    match text
    case None => W.None
    case Some(s) => match PayTypeFromString(s) case Ok(p) => W.Some(p) case Err(_) => W.None
  }

  function ShowPayType(p: W.Option<PayType>): W.Option<string> {
    match p
    case None => W.None
    case Some(t) => W.Some(PayTypeToString(t))
  }

  /** What is written is read back unchanged. */
  lemma PayTypeStored(p: W.Option<PayType>)
    ensures ParsePayType(ShowPayType(p)) == p
  {
    if p.Some? { PayTypeRoundTrip(p.value); }
  }

  /** A stored row joined with its session type. */
  function ReadSession(r: StoredSession, types: seq<SessionType>): Session {
    Session(r.id, r.sessionTypeId, TypeName(types, r.sessionTypeId), r.date, r.projectName, r.hours,
      r.description, ParsePayType(r.payType), r.hourlyRate, r.fixedAmount)
  }

  function ReadSessions(rs: seq<StoredSession>, types: seq<SessionType>): (ss: seq<Session>)
    ensures |ss| == |rs| && forall i :: 0 <= i < |rs| ==> ss[i] == ReadSession(rs[i], types)
  {
    seq(|rs|, i requires 0 <= i < |rs| => ReadSession(rs[i], types))
  }

  // ---------- Project cache ----------

  /** The cache's key: project name and session type. */
  function ProjectKey(e: ProjectEntry): (string, int) {
    (e.projectName, e.sessionTypeId)
  }

  /**
   * `update_project_cache_internal`: every entry for (name, type) gets the
   * new date and one more use; when there was none, one entry with a single
   * use is added.
   */
  function UpsertProject(ps: seq<ProjectEntry>, name: string, typeId: int, date: Date): seq<ProjectEntry> {
    if exists e :: e in ps && ProjectKey(e) == (name, typeId) then
      seq(|ps|, i requires 0 <= i < |ps| =>
        if ProjectKey(ps[i]) == (name, typeId) then ProjectEntry(name, typeId, date, ps[i].useCount + 1) else ps[i])
    else ps + [ProjectEntry(name, typeId, date, 1)]
  }

  predicate ProjectKeysUnique(ps: seq<ProjectEntry>) {
    forall i, j :: 0 <= i < j < |ps| ==> ProjectKey(ps[i]) != ProjectKey(ps[j])
  }

  /** The upsert keeps one entry per key. */
  lemma UpsertKeepsKeysUnique(ps: seq<ProjectEntry>, name: string, typeId: int, date: Date)
    requires ProjectKeysUnique(ps)
    ensures ProjectKeysUnique(UpsertProject(ps, name, typeId, date))
  {
    var r := UpsertProject(ps, name, typeId, date);
    if exists e :: e in ps && ProjectKey(e) == (name, typeId) {
      assert forall i :: 0 <= i < |ps| ==> ProjectKey(r[i]) == ProjectKey(ps[i]);
    } else {
      forall i, j | 0 <= i < j < |r| ensures ProjectKey(r[i]) != ProjectKey(r[j]) {
        if j == |ps| { assert ps[i] in ps; }
      }
    }
  }

  /**
   * With one entry per key: a new key gets one entry with a single use at the
   * end; an existing key's entry gets the new date and one more use, in
   * place; every other entry stays as it was.
   */
  lemma UpsertProjectSpec(ps: seq<ProjectEntry>, name: string, typeId: int, date: Date)
    requires ProjectKeysUnique(ps)
    ensures ProjectKeysUnique(UpsertProject(ps, name, typeId, date))
    ensures (forall e :: e in ps ==> ProjectKey(e) != (name, typeId)) ==>
      UpsertProject(ps, name, typeId, date) == ps + [ProjectEntry(name, typeId, date, 1)]
    ensures forall i :: 0 <= i < |ps| && ProjectKey(ps[i]) == (name, typeId) ==>
      UpsertProject(ps, name, typeId, date) == ps[i := ProjectEntry(name, typeId, date, ps[i].useCount + 1)]
  {
    UpsertKeepsKeysUnique(ps, name, typeId, date);
    var r := UpsertProject(ps, name, typeId, date);
    forall i | 0 <= i < |ps| && ProjectKey(ps[i]) == (name, typeId)
      ensures r == ps[i := ProjectEntry(name, typeId, date, ps[i].useCount + 1)]
    {
      assert ps[i] in ps;
      var u := ps[i := ProjectEntry(name, typeId, date, ps[i].useCount + 1)];
      forall j | 0 <= j < |ps| ensures r[j] == u[j] {
        if j < i { assert ProjectKey(ps[j]) != ProjectKey(ps[i]); }
        if j > i { assert ProjectKey(ps[i]) != ProjectKey(ps[j]); }
      }
    }
  }

  // ---------- Invoices ----------

  /** `format!("INV-{:04}", count + 1)`. */
  function InvoiceNumber(count: nat): string {
    "INV-" + Text.PadZeros(Text.NatToString(count + 1), 4)
  }

  /** The number names the invoice's position: "INV-" then at least four digits denoting count + 1. */
  lemma InvoiceNumberParse(count: nat)
    ensures |InvoiceNumber(count)| >= 8 && InvoiceNumber(count)[..4] == "INV-"
    ensures Text.AllDigits(InvoiceNumber(count)[4..])
    ensures Text.DigitsValue(InvoiceNumber(count)[4..]) == count + 1
  {
    var digits := Text.NatToString(count + 1);
    var padded := Text.PadZeros(digits, 4);
    assert InvoiceNumber(count)[4..] == padded;
    Text.NatToStringRoundTrip(count + 1);
    Text.LeadingZerosValue(|padded| - |digits|, digits);
  }

  lemma InvoiceNumberInjective(a: nat, b: nat)
    requires InvoiceNumber(a) == InvoiceNumber(b)
    ensures a == b
  {
    InvoiceNumberParse(a);
    InvoiceNumberParse(b);
  }

  /** The line-item amount, matched on the stored pay type text as `create_invoice` does. */
  function ItemAmount(r: StoredSession): real {
    if r.payType == W.Some("Hourly") then r.hourlyRate.GetOr(0.0) * r.hours
    else if r.payType == W.Some("Fixed") then r.fixedAmount.GetOr(0.0)
    else 0.0
  }

  /** Matching the text directly agrees with the pay rule on the parsed session, whatever text is stored. */
  lemma ItemAmountIsPay(r: StoredSession, types: seq<SessionType>)
    ensures ItemAmount(r) == CalculatePay(ReadSession(r, types))
  {
    if r.payType.Some? {
      PayTypeFromStringCases(r.payType.value);
    }
  }

  function ItemAmountOf(r: StoredSession): real { ItemAmount(r) }

  /** `"{type or Work} - {project}"`. */
  function ItemDescription(r: StoredSession, types: seq<SessionType>): string {
    TypeName(types, r.sessionTypeId).GetOr("Work") + " - " + r.projectName
  }

  function InvoiceItems(rs: seq<StoredSession>, types: seq<SessionType>, invoiceId: int, firstId: int): (items: seq<InvoiceItem>)
    ensures |items| == |rs|
    ensures forall k :: 0 <= k < |rs| ==> items[k] == InvoiceItem(firstId + k, invoiceId, W.Some(rs[k].id),
      ItemDescription(rs[k], types), rs[k].hours, rs[k].hourlyRate.GetOr(0.0), ItemAmount(rs[k]))
  {
    seq(|rs|, k requires 0 <= k < |rs| => InvoiceItem(firstId + k, invoiceId, W.Some(rs[k].id),
      ItemDescription(rs[k], types), rs[k].hours, rs[k].hourlyRate.GetOr(0.0), ItemAmount(rs[k])))
  }

  /** The lines of one invoice take the next |rs| line ids. */
  lemma InvoiceItemIds(rs: seq<StoredSession>, types: seq<SessionType>, invoiceId: int, firstId: int)
    ensures forall it :: it in InvoiceItems(rs, types, invoiceId, firstId) ==> firstId <= it.id < firstId + |rs|
  {
    var items := InvoiceItems(rs, types, invoiceId, firstId);
    forall it | it in items ensures firstId <= it.id < firstId + |rs| {
      var k :| 0 <= k < |items| && items[k] == it;
    }
  }

  function ItemAmountField(i: InvoiceItem): real { i.amount }

  lemma {:induction false} InvoiceItemsSum(rs: seq<StoredSession>, types: seq<SessionType>, invoiceId: int, firstId: int)
    ensures Sum(InvoiceItems(rs, types, invoiceId, firstId), ItemAmountField) == Sum(rs, ItemAmountOf)
    decreases |rs|
  {
    if rs != [] {
      var init := rs[..|rs| - 1];
      InvoiceItemsSum(init, types, invoiceId, firstId);
      assert InvoiceItems(rs, types, invoiceId, firstId)[..|rs| - 1] == InvoiceItems(init, types, invoiceId, firstId);
    }
  }

  /** The rows selected by `WHERE s.id IN (...)`: each at most once, in table order. */
  function SelectByIds(rs: seq<StoredSession>, ids: seq<int>): seq<StoredSession> {
    Filter(rs, (r: StoredSession) => r.id in ids)
  }

  function TaxAmount(subtotal: real, taxRate: W.Option<real>): real {
    subtotal * taxRate.GetOr(0.0) / 100.0
  }

  /** The total is the subtotal scaled by 1 + rate/100, and no lower than it for a non-negative rate and subtotal. */
  lemma InvoiceTotals(subtotal: real, taxRate: W.Option<real>)
    ensures subtotal + TaxAmount(subtotal, taxRate) == subtotal * (1.0 + taxRate.GetOr(0.0) / 100.0)
    ensures taxRate.None? ==> TaxAmount(subtotal, taxRate) == 0.0
    ensures subtotal >= 0.0 && taxRate.GetOr(0.0) >= 0.0 ==> subtotal + TaxAmount(subtotal, taxRate) >= subtotal
  {
  }

  /** The invoice row `create_invoice` inserts, as a Draft. */
  function NewInvoiceRecord(id: int, count: nat, inv: NewInvoice, subtotal: real, createdDate: Date): (r: Invoice)
    ensures r.status == Draft && r.invoiceNumber == InvoiceNumber(count)
    ensures r.total == r.subtotal + r.taxAmount && r.taxAmount == r.subtotal * inv.taxRate.GetOr(0.0) / 100.0
  {
    var tax := TaxAmount(subtotal, inv.taxRate);
    Invoice(id, InvoiceNumber(count), inv.clientName, inv.clientEmail, createdDate, inv.dueDate, Draft,
      subtotal, inv.taxRate, tax, subtotal + tax, inv.notes)
  }

  // ---------- Uninvoiced sessions ----------

  /** Ids of sessions already on some invoice line. */
  function InvoicedIds(items: seq<InvoiceItem>): set<int> {
    set i | i in items && i.sessionId.Some? :: i.sessionId.value
  }

  /** The session as `get_uninvoiced_sessions` reads it: its own rate, else its type's rate. */
  function WithTypeRate(r: StoredSession, types: seq<SessionType>): Session {
    var s := ReadSession(r, types);
    var typeRate := match FindType(types, r.sessionTypeId) case Some(t) => t.hourlyRate case None => W.None;
    s.(hourlyRate := if r.hourlyRate.Some? then r.hourlyRate else typeRate)
  }

  /** No later entry has a later date (`ORDER BY s.date DESC`). */
  predicate DateDescending(ss: seq<Session>) {
    forall i, j :: 0 <= i < j < |ss| ==> !DateLess(ss[i].date, ss[j].date)
  }

  /** Places s before the first entry whose date is not later than its own. */
  function InsertDesc(s: Session, ss: seq<Session>): seq<Session>
    decreases |ss|
  {
    if ss == [] then [s]
    else if !DateLess(s.date, ss[0].date) then [s] + ss
    else [ss[0]] + InsertDesc(s, ss[1..])
  }

  lemma {:induction false} InsertDescPermutes(s: Session, ss: seq<Session>)
    ensures multiset(InsertDesc(s, ss)) == multiset(ss) + multiset{s}
    decreases |ss|
  {
    if ss != [] && DateLess(s.date, ss[0].date) {
      InsertDescPermutes(s, ss[1..]);
      assert ss == [ss[0]] + ss[1..];
    }
  }

  lemma NotLaterAfterLater(a: Date, b: Date, c: Date)
    requires !DateLess(a, b) && !DateLess(b, c)
    ensures !DateLess(a, c)
  {
    DateLessTrichotomy(a, b);
    DateLessTrichotomy(b, c);
    if DateLess(a, c) {
      if DateLess(b, a) { DateLessTransitive(b, a, c); }
      if DateLess(c, b) { DateLessTransitive(a, c, b); }
    }
  }

  lemma {:induction false} InsertDescSorted(s: Session, ss: seq<Session>)
    requires DateDescending(ss)
    ensures DateDescending(InsertDesc(s, ss))
    decreases |ss|
  {
    if ss == [] {
    } else if !DateLess(s.date, ss[0].date) {
      forall j | 0 <= j < |ss| ensures !DateLess(s.date, ss[j].date) {
        if j > 0 { NotLaterAfterLater(s.date, ss[0].date, ss[j].date); }
      }
      ConsDesc(s, ss);
    } else {
      var rest := InsertDesc(s, ss[1..]);
      InsertDescSorted(s, ss[1..]);
      InsertDescPermutes(s, ss[1..]);
      forall j | 0 <= j < |rest| ensures !DateLess(ss[0].date, rest[j].date) {
        assert rest[j] in multiset(rest);
        if rest[j] == s {
          DateLessTrichotomy(s.date, ss[0].date);
          if DateLess(ss[0].date, s.date) { DateLessTransitive(ss[0].date, s.date, ss[0].date); DateLessIrreflexive(ss[0].date); }
        } else {
          assert rest[j] in ss[1..];
        }
      }
      ConsDesc(ss[0], rest);
    }
  }

  /** A session no earlier than every one of a descending list can go in front of it. */
  lemma ConsDesc(x: Session, rest: seq<Session>)
    requires DateDescending(rest)
    requires forall j :: 0 <= j < |rest| ==> !DateLess(x.date, rest[j].date)
    ensures DateDescending([x] + rest)
  {
    var r := [x] + rest;
    forall i, j | 0 <= i < j < |r| ensures !DateLess(r[i].date, r[j].date) {
      if i == 0 { assert r[j] == rest[j - 1]; } else { assert r[i] == rest[i - 1] && r[j] == rest[j - 1]; }
    }
  }

  /** Insertion sort, latest date first. */
  function SortDateDesc(ss: seq<Session>): (r: seq<Session>)
    ensures DateDescending(r) && multiset(r) == multiset(ss)
    decreases |ss|
  {
    if ss == [] then []
    else
      var init := ss[..|ss| - 1];
      var sorted := SortDateDesc(init);
      InsertDescSorted(ss[|ss| - 1], sorted);
      InsertDescPermutes(ss[|ss| - 1], sorted);
      assert ss == init + [ss[|ss| - 1]];
      InsertDesc(ss[|ss| - 1], sorted)
  }

  function OpenRows(rs: seq<StoredSession>, items: seq<InvoiceItem>): seq<StoredSession> {
    Filter(rs, (r: StoredSession) => r.id !in InvoicedIds(items))
  }

  function WithTypeRates(rs: seq<StoredSession>, types: seq<SessionType>): (ss: seq<Session>)
    ensures |ss| == |rs| && forall i :: 0 <= i < |rs| ==> ss[i] == WithTypeRate(rs[i], types)
  {
    seq(|rs|, i requires 0 <= i < |rs| => WithTypeRate(rs[i], types))
  }

  /**
   * `get_uninvoiced_sessions`: the sessions on no invoice line, each with its
   * own rate or else its type's, latest date first.
   */
  function UninvoicedSessions(rs: seq<StoredSession>, types: seq<SessionType>, items: seq<InvoiceItem>): seq<Session> {
    SortDateDesc(WithTypeRates(OpenRows(rs, items), types))
  }

  /** Exactly the sessions on no invoice line appear, latest first, with the session's rate taking precedence. */
  lemma UninvoicedSessionsSpec(rs: seq<StoredSession>, types: seq<SessionType>, items: seq<InvoiceItem>)
    ensures DateDescending(UninvoicedSessions(rs, types, items))
    ensures forall s :: s in UninvoicedSessions(rs, types, items) <==>
      exists r :: r in rs && r.id !in InvoicedIds(items) && s == WithTypeRate(r, types)
    ensures forall r :: r in rs && r.hourlyRate.Some? ==> WithTypeRate(r, types).hourlyRate == r.hourlyRate
  {
    var open := OpenRows(rs, items);
    var mapped := WithTypeRates(open, types);
    var out := UninvoicedSessions(rs, types, items);
    forall s ensures s in out <==> exists r :: r in rs && r.id !in InvoicedIds(items) && s == WithTypeRate(r, types) {
      calc { s in out; s in multiset(out); s in multiset(mapped); s in mapped; }
      if s in mapped {
        var i :| 0 <= i < |mapped| && mapped[i] == s;
        assert open[i] in open;
      }
      if exists r :: r in rs && r.id !in InvoicedIds(items) && s == WithTypeRate(r, types) {
        var r :| r in rs && r.id !in InvoicedIds(items) && s == WithTypeRate(r, types);
        assert r in open;
        var i :| 0 <= i < |open| && open[i] == r;
        assert mapped[i] == s;
      }
    }
  }

  // ---------- The store ----------

  class Database {
    var sessionTypes: seq<SessionType>
    var sessions: seq<StoredSession>
    var nextSessionId: int
    var projects: seq<ProjectEntry>
    var invoices: seq<Invoice>
    var invoiceItems: seq<InvoiceItem>
    var nextInvoiceId: int
    var nextItemId: int
    var unlocked: set<string>

    ghost predicate Valid()
      reads this
    {
      ProjectKeysUnique(projects)
      && (forall s :: s in sessions ==> s.id < nextSessionId)
      && (forall i :: i in invoices ==> i.id < nextInvoiceId)
      && (forall i :: i in invoiceItems ==> i.id < nextItemId)
    }

    /** A fresh store with the two default session types. */
    constructor ()
      ensures Valid()
      ensures sessionTypes == [SessionType(1, "Work", "#22C55E", W.Some(30.0)), SessionType(2, "Study", "#3B82F6", W.None)]
      ensures sessions == [] && projects == [] && invoices == [] && invoiceItems == [] && unlocked == {}
    {
      sessionTypes := [SessionType(1, "Work", "#22C55E", W.Some(30.0)), SessionType(2, "Study", "#3B82F6", W.None)];
      sessions := [];
      nextSessionId := 1;
      projects := [];
      invoices := [];
      invoiceItems := [];
      nextInvoiceId := 1;
      nextItemId := 1;
      unlocked := {};
    }

    function AllSessions(): seq<Session>
      reads this
    {
      ReadSessions(sessions, sessionTypes)
    }

    /** `add_session`: inserts the row, then refreshes the project cache. */
    method AddSession(ns: NewSession) returns (id: int)
      requires Valid()
      modifies this
      ensures Valid()
      ensures id == old(nextSessionId) && nextSessionId == id + 1
      ensures sessions == old(sessions) + [StoredSession(id, ns.sessionTypeId, ns.date, ns.projectName, ns.hours,
        ns.description, ShowPayType(ns.payType), ns.hourlyRate, ns.fixedAmount)]
      ensures projects == UpsertProject(old(projects), ns.projectName, ns.sessionTypeId, ns.date)
      ensures sessionTypes == old(sessionTypes) && invoices == old(invoices) && invoiceItems == old(invoiceItems)
      ensures nextInvoiceId == old(nextInvoiceId) && nextItemId == old(nextItemId) && unlocked == old(unlocked)
    {
      id := nextSessionId;
      sessions := sessions + [StoredSession(id, ns.sessionTypeId, ns.date, ns.projectName, ns.hours,
        ns.description, ShowPayType(ns.payType), ns.hourlyRate, ns.fixedAmount)];
      nextSessionId := nextSessionId + 1;
      UpdateProjectCache(ns.projectName, ns.sessionTypeId, ns.date);
    }

    method UpdateProjectCache(name: string, typeId: int, date: Date)
      requires ProjectKeysUnique(projects)
      modifies this`projects
      ensures ProjectKeysUnique(projects)
      ensures projects == UpsertProject(old(projects), name, typeId, date)
    {
      UpsertProjectSpec(projects, name, typeId, date);
      projects := UpsertProject(projects, name, typeId, date);
    }

    /** `unlock_achievement` (`INSERT OR IGNORE`): true exactly when the id was not there before. */
    method UnlockAchievement(achievementId: string) returns (inserted: bool)
      modifies this`unlocked
      ensures inserted <==> achievementId !in old(unlocked)
      ensures unlocked == old(unlocked) + {achievementId}
    {
      inserted := achievementId !in unlocked;
      unlocked := unlocked + {achievementId};
    }

    /**
     * `create_invoice`: numbers the invoice after the current count, totals
     * the selected sessions by the pay rule, adds the tax and inserts the
     * Draft invoice followed by one line per selected session.
     */
    method CreateInvoice(inv: NewInvoice, createdDate: Date) returns (invoiceId: int)
      requires Valid()
      modifies this`invoices, this`invoiceItems, this`nextInvoiceId, this`nextItemId
      ensures Valid()
      ensures invoiceId == old(nextInvoiceId)
      ensures invoices == old(invoices) + [NewInvoiceRecord(invoiceId, |old(invoices)|, inv,
        Sum(SelectByIds(sessions, inv.sessionIds), ItemAmountOf), createdDate)]
      ensures invoiceItems == old(invoiceItems) + InvoiceItems(SelectByIds(sessions, inv.sessionIds), sessionTypes, invoiceId, old(nextItemId))
    {
      var count := |invoices|;
      var selected := SelectByIds(sessions, inv.sessionIds);
      var subtotal := Sum(selected, ItemAmountOf);
      invoiceId := nextInvoiceId;
      nextInvoiceId := nextInvoiceId + 1;
      invoices := invoices + [NewInvoiceRecord(invoiceId, count, inv, subtotal, createdDate)];
      var items := InvoiceItems(selected, sessionTypes, invoiceId, nextItemId);
      InvoiceItemIds(selected, sessionTypes, invoiceId, nextItemId);
      invoiceItems := invoiceItems + items;
      nextItemId := nextItemId + |items|;
    }

    /** `delete_invoice`: removes its lines, then the invoice. */
    method DeleteInvoice(id: int)
      requires Valid()
      modifies this`invoices, this`invoiceItems
      ensures Valid()
      ensures invoiceItems == Filter(old(invoiceItems), (i: InvoiceItem) => i.invoiceId != id)
      ensures invoices == Filter(old(invoices), (i: Invoice) => i.id != id)
    {
      invoiceItems := Filter(invoiceItems, (i: InvoiceItem) => i.invoiceId != id);
      invoices := Filter(invoices, (i: Invoice) => i.id != id);
    }

    /** `update_invoice_status`: the invoice with that id takes the new status; nothing else changes. */
    method UpdateInvoiceStatus(id: int, status: InvoiceStatus)
      requires Valid()
      modifies this`invoices
      ensures Valid()
      ensures |invoices| == |old(invoices)|
      ensures forall k :: 0 <= k < |invoices| ==>
        invoices[k] == if old(invoices)[k].id == id then old(invoices)[k].(status := status) else old(invoices)[k]
    {
      invoices := seq(|invoices|, k requires 0 <= k < |invoices| reads this =>
        if invoices[k].id == id then invoices[k].(status := status) else invoices[k]);
    }

    function PaySummary(today: CivilDate): Analytics.PaySummary
      requires ValidCivil(today)
      reads this
    {
      Analytics.GetPaySummary(AllSessions(), today)
    }

    function Uninvoiced(): seq<Session>
      reads this
    {
      UninvoicedSessions(sessions, sessionTypes, invoiceItems)
    }
  }

  /** The invoice's subtotal is the sum of its line amounts, and each line follows the pay rule. */
  lemma CreatedInvoiceConsistent(rs: seq<StoredSession>, types: seq<SessionType>, ids: seq<int>, invoiceId: int, firstId: int)
    ensures Sum(InvoiceItems(SelectByIds(rs, ids), types, invoiceId, firstId), ItemAmountField) == Sum(SelectByIds(rs, ids), ItemAmountOf)
    ensures forall it :: it in InvoiceItems(SelectByIds(rs, ids), types, invoiceId, firstId) ==>
      exists r :: r in rs && r.id in ids && it.sessionId == W.Some(r.id) && it.amount == CalculatePay(ReadSession(r, types))
  {
    var sel := SelectByIds(rs, ids);
    var items := InvoiceItems(sel, types, invoiceId, firstId);
    InvoiceItemsSum(sel, types, invoiceId, firstId);
    forall it | it in items ensures exists r :: r in rs && r.id in ids && it.sessionId == W.Some(r.id) && it.amount == CalculatePay(ReadSession(r, types)) {
      var k :| 0 <= k < |items| && items[k] == it;
      assert sel[k] in sel;
      ItemAmountIsPay(sel[k], types);
    }
  }
}
