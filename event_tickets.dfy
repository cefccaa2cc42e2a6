/**
  * The ticket table of one event, src/pages/admin/EventTickets.tsx: the rows the server sends,
  * the search and status filter over them, and the counters above the table.
  */
module EventTickets {
  import opened JsText
  import Seqs
  import Backend

  /** The JSON value of a row's `usado` field: the store's boolean column arrives as a JSON
      boolean, while the page's row type declares a number, 0 or 1. */
  datatype JsonValue = JsonBool(b: bool) | JsonNumber(n: int)

  /** JavaScript truthiness of the field, as the badge of each row reads it. */
  predicate Truthy(v: JsonValue) {
    match v
    case JsonBool(b) => b
    case JsonNumber(n) => n != 0
  }

  datatype TicketRow = TicketRow(id: int, codigoQr: string, usado: JsonValue, metodoPago: string,
                                 tipoEntrada: string, clienteNombre: string, clienteEmail: string)

  /** How the status of a row is read: strictly against the numbers 1 and 0, as the filter and
      the counters are written, or by truthiness, as the badge is written. */
  datatype Reading = Strict | Truthiness

  predicate IsUsed(v: JsonValue, reading: Reading) {
    if reading == Strict then v == JsonNumber(1) else Truthy(v)
  }

  predicate IsPending(v: JsonValue, reading: Reading) {
    if reading == Strict then v == JsonNumber(0) else !Truthy(v)
  }

  /** Name and email are searched without regard to case, the code with it. */
  predicate MatchesSearch(t: TicketRow, search: string) {
    || Includes(ToLower(t.clienteNombre), ToLower(search))
    || Includes(ToLower(t.clienteEmail), ToLower(search))
    || Includes(t.codigoQr, search)
  }

  /** The test of `filteredTickets`: the search, and the status when the filter is 'used' or 'pending'. */
  predicate Keep(t: TicketRow, filter: string, search: string, reading: Reading) {
    if filter == "used" then MatchesSearch(t, search) && IsUsed(t.usado, reading)
    else if filter == "pending" then MatchesSearch(t, search) && IsPending(t.usado, reading)
    else MatchesSearch(t, search)
  }

  function FilteredTickets(ts: seq<TicketRow>, filter: string, search: string, reading: Reading): seq<TicketRow> {
    Seqs.Filter(ts, (t: TicketRow) => Keep(t, filter, search, reading))
  }

  /** The counters: every row, the used ones, the pending ones. */
  datatype Counts = Counts(total: nat, used: nat, pending: nat)

  function TicketStats(ts: seq<TicketRow>, reading: Reading): (c: Counts)
    ensures c.total == |ts|
  {
    Counts(|ts|,
           Seqs.Count(ts, (t: TicketRow) => IsUsed(t.usado, reading)),
           Seqs.Count(ts, (t: TicketRow) => IsPending(t.usado, reading)))
  }

  /** What the filter keeps: rows matching the search, of the chosen status, in table order;
      with any filter value but 'used' and 'pending' the search alone decides. */
  lemma FilterMeaning(ts: seq<TicketRow>, filter: string, search: string, reading: Reading, k: nat)
    requires k < |FilteredTickets(ts, filter, search, reading)|
    ensures var t := FilteredTickets(ts, filter, search, reading)[k];
            && t in ts && MatchesSearch(t, search)
            && (filter == "used" ==> IsUsed(t.usado, reading))
            && (filter == "pending" ==> IsPending(t.usado, reading))
  {
    Seqs.FilterIff(ts, (t: TicketRow) => Keep(t, filter, search, reading));
  }

  /** Nothing the filter should show is missing: every row that matches the search and, under
      'used' or 'pending', has that status, is in the table. */
  lemma FilterComplete(ts: seq<TicketRow>, filter: string, search: string, reading: Reading, i: nat)
    requires i < |ts| && MatchesSearch(ts[i], search)
    requires filter == "used" ==> IsUsed(ts[i].usado, reading)
    requires filter == "pending" ==> IsPending(ts[i].usado, reading)
    ensures ts[i] in FilteredTickets(ts, filter, search, reading)
  {
    Seqs.FilterIff(ts, (t: TicketRow) => Keep(t, filter, search, reading));
  }

  lemma MatchesEmptySearch(t: TicketRow)
    ensures MatchesSearch(t, "")
  {
    assert ToLower("") == "";
    IncludesEmpty(ToLower(t.clienteNombre));
  }

  /** With an empty search and a filter other than 'used' and 'pending', every row is shown. */
  lemma EmptySearchShowsAll(ts: seq<TicketRow>, filter: string, reading: Reading)
    requires filter != "used" && filter != "pending"
    ensures FilteredTickets(ts, filter, "", reading) == ts
  {
    forall k | 0 <= k < |ts|
      ensures Keep(ts[k], filter, "", reading)
    {
      MatchesEmptySearch(ts[k]);
    }
    Seqs.FilterAll(ts, (t: TicketRow) => Keep(t, filter, "", reading));
  }

  /** No row is both used and pending, so the two counters add up to at most the total, and to
      exactly the total when every row's status reads as one of the two. */
  lemma CountersBound(ts: seq<TicketRow>, reading: Reading)
    ensures var c := TicketStats(ts, reading);
            && c.used + c.pending <= c.total
            && (c.used + c.pending == c.total <==>
                  forall k :: 0 <= k < |ts| ==> IsUsed(ts[k].usado, reading) || IsPending(ts[k].usado, reading))
  {
    Seqs.CountDisjoint(ts, (t: TicketRow) => IsUsed(t.usado, reading), (t: TicketRow) => IsPending(t.usado, reading));
  }

  /** Read by truthiness, every row is used or pending, so the counters always add up. */
  lemma TruthyCountersAddUp(ts: seq<TicketRow>)
    ensures TicketStats(ts, Truthiness).used + TicketStats(ts, Truthiness).pending == |ts|
  {
    CountersBound(ts, Truthiness);
  }

  /** The row the page receives for a row of the store's ticket list. */
  function FromStore(r: Backend.TicketRow): TicketRow {
    TicketRow(r.id, r.codigo, JsonBool(r.usado), r.metodoPago, r.tipoEntrada, r.clienteNombre, r.clienteEmail)
  }

  /**
    * As written, the strict reading never matches the rows the store sends, whose flag is a
    * boolean: both counters stay at zero and the 'used' and 'pending' filters show nothing,
    * however many tickets have been redeemed.
    */
  lemma StrictReadingMissesStoreRows(rows: seq<Backend.TicketRow>, search: string)
    ensures var ts := Seqs.Map(rows, FromStore);
            && TicketStats(ts, Strict) == Counts(|rows|, 0, 0)
            && FilteredTickets(ts, "used", search, Strict) == []
            && FilteredTickets(ts, "pending", search, Strict) == []
  {
    var ts := Seqs.Map(rows, FromStore);
    Seqs.CountNone(ts, (t: TicketRow) => IsUsed(t.usado, Strict));
    Seqs.CountNone(ts, (t: TicketRow) => IsPending(t.usado, Strict));
    Seqs.FilterNone(ts, (t: TicketRow) => Keep(t, "used", search, Strict));
    Seqs.FilterNone(ts, (t: TicketRow) => Keep(t, "pending", search, Strict));
  }

  /** One redeemed ticket: the store counts it as used, the page as written shows zero used. */
  lemma OneRedeemedTicketShowsZero()
    ensures var rows := [Backend.TicketRow(1, "c", true, "tarjeta_simulada", "General", 1000, "Ana", "a@b.c")];
            && Seqs.Count(rows, (r: Backend.TicketRow) => r.usado) == 1
            && TicketStats(Seqs.Map(rows, FromStore), Strict).used == 0
  {
    var rows := [Backend.TicketRow(1, "c", true, "tarjeta_simulada", "General", 1000, "Ana", "a@b.c")];
    StrictReadingMissesStoreRows(rows, "");
    assert rows[..0] == [];
  }

  /** Read by truthiness, the counters over the store's rows are the store's own: used rows
      are the redeemed tickets and pending rows the others. */
  lemma TruthyReadingMatchesStore(rows: seq<Backend.TicketRow>)
    ensures var c := TicketStats(Seqs.Map(rows, FromStore), Truthiness);
            && c.used == Seqs.Count(rows, (r: Backend.TicketRow) => r.usado)
            && c.pending == Seqs.Count(rows, (r: Backend.TicketRow) => !r.usado)
            && c.used + c.pending == |rows|
  {
    Seqs.CountMapAgree(rows, FromStore, (t: TicketRow) => IsUsed(t.usado, Truthiness), (r: Backend.TicketRow) => r.usado);
    Seqs.CountMapAgree(rows, FromStore, (t: TicketRow) => IsPending(t.usado, Truthiness), (r: Backend.TicketRow) => !r.usado);
    TruthyCountersAddUp(Seqs.Map(rows, FromStore));
  }
}
