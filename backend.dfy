/**
  * The ticket store behind the HTTP API of backend/src/index.ts, as values: the
  * tables, the principal the token layer hands to each protected route, and every
  * handler as a function from the tables before to the reply and the tables after.
  * The class in module Store performs the same handlers step by step and is proved
  * against these functions; the lemmas here state what the handlers promise.
  *
  * Ids: events and ticket types are maps keyed by their serial id, with the next
  * serial kept beside them; clients and tickets are sequences in insertion order,
  * and a row's id is its position plus one.
  */
module Backend {
  import opened Common

  /** The `user` a verified token attaches to a request: its `id` and its `rol`. */
  datatype Principal = Principal(id: int, rol: string)

  const Admin: string := "admin"
  const Organizer: string := "organizador"

  /** The role list every protected route passes to `authorizeRole`. */
  const StaffRoles: seq<string> := [Admin, Organizer]

  /** `authorizeRole(roles)`: the request goes on only when the principal's role is listed. */
  predicate AuthorizeRole(user: Principal, roles: seq<string>) {
    user.rol in roles
  }

  datatype Event = Event(titulo: string, descripcion: string, fecha: string, lugar: string,
                         imagenUrl: string, usuarioId: int)

  /** A ticket type; the price is a whole number of currency units. */
  datatype TicketType = TicketType(eventoId: int, nombre: string, precio: int, stock: int)

  datatype Client = Client(nombre: string, email: string)

  datatype Ticket = Ticket(clienteId: int, tipoId: int, codigo: string, metodoPago: string, usado: bool)

  datatype Db = Db(events: map<int, Event>, types: map<int, TicketType>,
                   clients: seq<Client>, tickets: seq<Ticket>,
                   nextEventId: int, nextTypeId: int)

  /** No two tickets share a redemption code. */
  predicate UniqueCodes(ts: seq<Ticket>) {
    forall i, j :: 0 <= i < j < |ts| ==> ts[i].codigo != ts[j].codigo
  }

  /** What every handler keeps: serial counters ahead of every id in use, and unique codes. */
  predicate Valid(db: Db) {
    && db.nextEventId >= 1 && db.nextTypeId >= 1
    && (forall id :: id in db.events ==> 1 <= id < db.nextEventId)
    && (forall id :: id in db.types ==> 1 <= id < db.nextTypeId)
    && UniqueCodes(db.tickets)
  }

  /** The empty store. */
  const EmptyDb: Db := Db(map[], map[], [], [], 1, 1)

  /** The `ticket` payload of the validation query: the ticket row with the columns its joins add. */
  datatype TicketDetails = TicketDetails(id: int, ticket: Ticket, tipoEntrada: string, precio: int,
                                         evento: string, eventoId: int,
                                         clienteNombre: string, clienteEmail: string)

  datatype ApiError =
    | RoleDenied          // `authorizeRole` rejected the principal's role
    | MissingData         // a required purchase field is missing
    | InvalidType         // 'Tipo de entrada no válido'
    | InsufficientStock   // 'No hay suficiente stock'
    | NotFound            // no ticket with that code
    | Forbidden           // the event is not the principal's
    | AlreadyUsed(ticket: TicketDetails)

  /** The HTTP status each error is answered with. */
  function StatusCode(e: ApiError): int {
    match e
    case RoleDenied => 403
    case MissingData => 400
    case InvalidType => 500
    case InsufficientStock => 500
    case NotFound => 404
    case Forbidden => 403
    case AlreadyUsed(_) => 400
  }

  /** What a handler answers, and the tables it leaves behind. */
  datatype Reply<+T> = Reply(result: Result<T, ApiError>, db: Db)

  /** The reply of a handler that answers with a message only. */
  datatype Done = Done

  predicate OwnsEvent(db: Db, user: Principal, eventId: int) {
    eventId in db.events && db.events[eventId].usuarioId == user.id
  }

  // ---------------------------------------------------------------- purchase

  /** The answer to a successful purchase: the buyer echoed back and the codes issued, in order. */
  datatype Receipt = Receipt(nombre: string, email: string, codes: seq<string>)

  /** `!nombre || !email || !tipo_entrada_id || !cantidad`: empty text or a zero number. */
  predicate MissingFields(nombre: string, email: string, tipoId: int, cantidad: int) {
    nombre == "" || email == "" || tipoId == 0 || cantidad == 0
  }

  /** The rows the purchase loop inserts: one unused ticket of the type for the client per code. */
  function IssueTickets(clienteId: int, tipoId: int, codes: seq<string>, metodo: string): (ts: seq<Ticket>)
    ensures |ts| == |codes|
    ensures forall k :: 0 <= k < |codes| ==> ts[k] == Ticket(clienteId, tipoId, codes[k], metodo, false)
  {
    if codes == [] then []
    else IssueTickets(clienteId, tipoId, codes[..|codes| - 1], metodo)
         + [Ticket(clienteId, tipoId, codes[|codes| - 1], metodo, false)]
  }

  /** The codes a purchase of `cantidad` uses: the first `cantidad` generated codes, none when it is negative. */
  function CodesFor(uuids: seq<string>, cantidad: int): seq<string>
    requires cantidad <= |uuids|
  {
    if cantidad > 0 then uuids[..cantidad] else []
  }

  /** Codes the generator may hand to a purchase: enough of them, pairwise distinct, none in use. */
  predicate FreshCodes(db: Db, uuids: seq<string>, cantidad: int) {
    && cantidad <= |uuids|
    && (forall i, j :: 0 <= i < j < |uuids| ==> uuids[i] != uuids[j])
    && (forall i, k :: 0 <= i < |uuids| && 0 <= k < |db.tickets| ==> uuids[i] != db.tickets[k].codigo)
  }

  /**
    * POST /api/comprar. `uuids` stands for the codes `uuidv4` hands out, in order.
    * The checks come first; everything after them happens in one transaction, so
    * a failed check leaves the tables as they were.
    */
  function Purchase(db: Db, nombre: string, email: string, tipoId: int, cantidad: int,
                    metodo: string, uuids: seq<string>): (r: Reply<Receipt>)
    requires cantidad <= |uuids|
    ensures r.result.Err? ==> r.db == db
    ensures r.result == Err(MissingData) <==> MissingFields(nombre, email, tipoId, cantidad)
    ensures r.result == Err(InvalidType) <==>
              !MissingFields(nombre, email, tipoId, cantidad) && tipoId !in db.types
    ensures r.result == Err(InsufficientStock) <==>
              !MissingFields(nombre, email, tipoId, cantidad) && tipoId in db.types
              && db.types[tipoId].stock < cantidad
    ensures r.result.Ok? <==>
              !MissingFields(nombre, email, tipoId, cantidad) && tipoId in db.types
              && db.types[tipoId].stock >= cantidad
    ensures r.result.Ok? ==> PurchaseEffect(db, r.db, r.result.value, nombre, email, tipoId, cantidad, metodo)
    ensures r.result.Ok? ==> r.result.value.codes == CodesFor(uuids, cantidad)
  {
    if MissingFields(nombre, email, tipoId, cantidad) then Reply(Err(MissingData), db)
    else if tipoId !in db.types then Reply(Err(InvalidType), db)
    else if db.types[tipoId].stock < cantidad then Reply(Err(InsufficientStock), db)
    else
      var codes := CodesFor(uuids, cantidad);
      Reply(Ok(Receipt(nombre, email, codes)), Checkout(db, nombre, email, tipoId, cantidad, metodo, codes))
  }

  /** The tables after the purchase transaction commits: the client row, the ticket rows for
      `codes`, and the lowered stock. */
  function Checkout(db: Db, nombre: string, email: string, tipoId: int, cantidad: int,
                    metodo: string, codes: seq<string>): Db
    requires tipoId in db.types
  {
    var tipo := db.types[tipoId];
    db.(clients := db.clients + [Client(nombre, email)],
        tickets := db.tickets + IssueTickets(|db.clients| + 1, tipoId, codes, metodo),
        types := db.types[tipoId := tipo.(stock := tipo.stock - cantidad)])
  }

  /**
    * What a successful purchase does, and all it does: one new client; one new unused ticket
    * per returned code, in order, for that client and type; that type's stock lowered by
    * `cantidad`; every other row untouched.
    */
  predicate PurchaseEffect(db: Db, db': Db, receipt: Receipt, nombre: string, email: string,
                           tipoId: int, cantidad: int, metodo: string)
  {
    && receipt.nombre == nombre && receipt.email == email
    && |receipt.codes| == (if cantidad > 0 then cantidad else 0)
    && db'.clients == db.clients + [Client(nombre, email)]
    && |db'.tickets| == |db.tickets| + |receipt.codes|
    && db'.tickets[..|db.tickets|] == db.tickets
    && (forall k :: 0 <= k < |receipt.codes| ==>
          db'.tickets[|db.tickets| + k] == Ticket(|db'.clients|, tipoId, receipt.codes[k], metodo, false))
    && tipoId in db.types && db'.types.Keys == db.types.Keys
    && db'.types[tipoId] == db.types[tipoId].(stock := db.types[tipoId].stock - cantidad)
    && (forall id :: id in db.types && id != tipoId ==> db'.types[id] == db.types[id])
    && db'.events == db.events
    && db'.nextEventId == db.nextEventId && db'.nextTypeId == db.nextTypeId
  }

  /** The check against stock is what keeps a stock that was not negative from going negative. */
  lemma PurchaseKeepsStock(db: Db, nombre: string, email: string, tipoId: int, cantidad: int,
                           metodo: string, uuids: seq<string>)
    requires cantidad <= |uuids|
    requires cantidad >= 1
    ensures var r := Purchase(db, nombre, email, tipoId, cantidad, metodo, uuids);
            r.result.Ok? ==> r.db.types[tipoId].stock >= 0
                             && r.db.types[tipoId].stock == db.types[tipoId].stock - cantidad
  {
  }

  /** Appending tickets whose codes are distinct and new keeps the codes unique. */
  lemma AppendKeepsCodesUnique(ts: seq<Ticket>, added: seq<Ticket>)
    requires UniqueCodes(ts) && UniqueCodes(added)
    requires forall i, k :: 0 <= i < |added| && 0 <= k < |ts| ==> added[i].codigo != ts[k].codigo
    ensures UniqueCodes(ts + added)
  {
    var all := ts + added;
    forall i, j | 0 <= i < j < |all|
      ensures all[i].codigo != all[j].codigo
    {
      if j >= |ts| {
        assert all[j] == added[j - |ts|];
        if i >= |ts| {
          assert all[i] == added[i - |ts|];
        } else {
          assert all[i] == ts[i];
        }
      } else {
        assert all[i] == ts[i] && all[j] == ts[j];
      }
    }
  }

  /** The codes a purchase takes from fresh generated codes are distinct and unused. */
  lemma CodesForFresh(db: Db, uuids: seq<string>, cantidad: int)
    requires FreshCodes(db, uuids, cantidad)
    ensures var codes := CodesFor(uuids, cantidad);
            && (forall i, j :: 0 <= i < j < |codes| ==> codes[i] != codes[j])
            && (forall i, k :: 0 <= i < |codes| && 0 <= k < |db.tickets| ==> codes[i] != db.tickets[k].codigo)
  {
    var codes := CodesFor(uuids, cantidad);
    assert forall k :: 0 <= k < |codes| ==> codes[k] == uuids[k];
  }

  /** Committing a purchase with distinct, unused codes keeps the store's invariant. */
  lemma CheckoutPreservesValid(db: Db, nombre: string, email: string, tipoId: int, cantidad: int,
                               metodo: string, codes: seq<string>)
    requires Valid(db) && tipoId in db.types
    requires forall i, j :: 0 <= i < j < |codes| ==> codes[i] != codes[j]
    requires forall i, k :: 0 <= i < |codes| && 0 <= k < |db.tickets| ==> codes[i] != db.tickets[k].codigo
    ensures Valid(Checkout(db, nombre, email, tipoId, cantidad, metodo, codes))
  {
    var added := IssueTickets(|db.clients| + 1, tipoId, codes, metodo);
    AppendKeepsCodesUnique(db.tickets, added);
  }

  /** A purchase given unused, distinct codes keeps the store's invariant, unique codes above all. */
  lemma PurchasePreservesValid(db: Db, nombre: string, email: string, tipoId: int, cantidad: int,
                               metodo: string, uuids: seq<string>)
    requires Valid(db) && FreshCodes(db, uuids, cantidad)
    ensures Valid(Purchase(db, nombre, email, tipoId, cantidad, metodo, uuids).db)
  {
    var r := Purchase(db, nombre, email, tipoId, cantidad, metodo, uuids);
    if r.result.Ok? {
      var codes := CodesFor(uuids, cantidad);
      CodesForFresh(db, uuids, cantidad);
      assert r.db == Checkout(db, nombre, email, tipoId, cantidad, metodo, codes);
      CheckoutPreservesValid(db, nombre, email, tipoId, cantidad, metodo, codes);
    }
  }

  /** How many tickets of a type a list holds. */
  function CountOfType(ts: seq<Ticket>, tipoId: int): (n: nat)
    ensures n <= |ts|
  {
    if ts == [] then 0
    else CountOfType(ts[..|ts| - 1], tipoId) + (if ts[|ts| - 1].tipoId == tipoId then 1 else 0)
  }

  lemma {:induction false} CountOfTypeAppend(a: seq<Ticket>, b: seq<Ticket>, tipoId: int)
    ensures CountOfType(a + b, tipoId) == CountOfType(a, tipoId) + CountOfType(b, tipoId)
    decreases |b|
  {
    if b != [] {
      CountOfTypeAppend(a, b[..|b| - 1], tipoId);
      assert (a + b)[..|a + b| - 1] == a + b[..|b| - 1];
      assert (a + b)[|a + b| - 1] == b[|b| - 1];
    } else {
      assert a + b == a;
    }
  }

  lemma {:induction false} CountOfIssued(clienteId: int, tipoId: int, codes: seq<string>, metodo: string, other: int)
    ensures CountOfType(IssueTickets(clienteId, tipoId, codes, metodo), other)
            == if other == tipoId then |codes| else 0
    decreases |codes|
  {
    if codes != [] {
      var ts := IssueTickets(clienteId, tipoId, codes, metodo);
      CountOfIssued(clienteId, tipoId, codes[..|codes| - 1], metodo, other);
      assert ts[..|ts| - 1] == IssueTickets(clienteId, tipoId, codes[..|codes| - 1], metodo);
    }
  }

  /** One purchase request, with the codes the generator would hand it. */
  datatype PurchaseRequest = PurchaseRequest(nombre: string, email: string, tipoId: int,
                                             cantidad: int, metodo: string, uuids: seq<string>)

  /** A run of purchases, one after the other. */
  function RunPurchases(db: Db, reqs: seq<PurchaseRequest>): Db
    requires forall k :: 0 <= k < |reqs| ==> reqs[k].cantidad <= |reqs[k].uuids|
    decreases |reqs|
  {
    if reqs == [] then db
    else
      var q := reqs[0];
      RunPurchases(Purchase(db, q.nombre, q.email, q.tipoId, q.cantidad, q.metodo, q.uuids).db, reqs[1..])
  }

  /**
    * No oversell: over any run of purchases of at least one ticket each, every unit of stock a
    * type loses is one new ticket of that type, and a stock that started at zero or more never
    * goes below zero.
    */
  lemma {:induction false} NoOversell(db: Db, reqs: seq<PurchaseRequest>, tipoId: int)
    requires forall k :: 0 <= k < |reqs| ==> 1 <= reqs[k].cantidad <= |reqs[k].uuids|
    requires tipoId in db.types && db.types[tipoId].stock >= 0
    ensures var db' := RunPurchases(db, reqs);
            && tipoId in db'.types
            && db'.types[tipoId].stock >= 0
            && CountOfType(db'.tickets, tipoId) - CountOfType(db.tickets, tipoId)
               == db.types[tipoId].stock - db'.types[tipoId].stock
    decreases |reqs|
  {
    if reqs != [] {
      var q := reqs[0];
      var r := Purchase(db, q.nombre, q.email, q.tipoId, q.cantidad, q.metodo, q.uuids);
      if r.result.Ok? {
        var codes := r.result.value.codes;
        assert r.db.tickets == db.tickets + IssueTickets(|db.clients| + 1, q.tipoId, codes, q.metodo);
        CountOfTypeAppend(db.tickets, IssueTickets(|db.clients| + 1, q.tipoId, codes, q.metodo), tipoId);
        CountOfIssued(|db.clients| + 1, q.tipoId, codes, q.metodo, tipoId);
      }
      NoOversell(r.db, reqs[1..], tipoId);
    }
  }

  /** As the guard is written, a negative quantity passes it: no ticket is issued, a client
      row is still added, and the type's stock grows by the quantity's magnitude. */
  lemma NegativeQuantityRestocks(db: Db, nombre: string, email: string, tipoId: int, cantidad: int,
                                 metodo: string)
    requires nombre != "" && email != "" && tipoId != 0 && cantidad < 0
    requires tipoId in db.types && db.types[tipoId].stock >= 0
    ensures var r := Purchase(db, nombre, email, tipoId, cantidad, metodo, []);
            && r.result == Ok(Receipt(nombre, email, []))
            && r.db.tickets == db.tickets
            && |r.db.clients| == |db.clients| + 1
            && r.db.types[tipoId].stock == db.types[tipoId].stock + (0 - cantidad)
  {
  }

  // -------------------------------------------------------------- redemption

  /** Ticket `i` survives the joins of the validation query: its type, that type's event and its client exist. */
  predicate Joined(db: Db, i: int) {
    && 0 <= i < |db.tickets|
    && db.tickets[i].tipoId in db.types
    && db.types[db.tickets[i].tipoId].eventoId in db.events
    && 1 <= db.tickets[i].clienteId <= |db.clients|
  }

  /** Ticket `i` is a row of the validation query for `codigo`. */
  predicate RowMatches(db: Db, codigo: string, i: int) {
    Joined(db, i) && db.tickets[i].codigo == codigo
  }

  /** The first row of the validation query for `codigo`, looking from ticket `k` on. */
  function FindRowFrom(db: Db, codigo: string, k: nat): (r: Option<nat>)
    requires k <= |db.tickets|
    ensures r.Some? ==> k <= r.value && RowMatches(db, codigo, r.value)
    ensures r.Some? ==> forall j :: k <= j < r.value ==> !RowMatches(db, codigo, j)
    ensures r.None? ==> forall j :: k <= j ==> !RowMatches(db, codigo, j)
    decreases |db.tickets| - k
  {
    if k == |db.tickets| then None
    else if RowMatches(db, codigo, k) then Some(k)
    else FindRowFrom(db, codigo, k + 1)
  }

  /** `result.rows[0]` of the validation query, None when it has no row. */
  function FindRow(db: Db, codigo: string): Option<nat> {
    FindRowFrom(db, codigo, 0)
  }

  /** The joined row for ticket `i`. */
  function Details(db: Db, i: int): (d: TicketDetails)
    requires Joined(db, i)
    ensures d.ticket == db.tickets[i] && d.id == i + 1
    ensures d.eventoId == db.types[db.tickets[i].tipoId].eventoId
  {
    var t := db.tickets[i];
    var tipo := db.types[t.tipoId];
    var c := db.clients[t.clienteId - 1];
    TicketDetails(i + 1, t, tipo.nombre, tipo.precio, db.events[tipo.eventoId].titulo, tipo.eventoId,
                  c.nombre, c.email)
  }

  /** The principal may validate ticket `i`: an admin any ticket, anyone else only a ticket of
      an event they own. */
  predicate MayValidate(db: Db, user: Principal, i: int)
    requires Joined(db, i)
  {
    user.rol == Admin || OwnsEvent(db, user, db.types[db.tickets[i].tipoId].eventoId)
  }

  /**
    * POST /api/validar-qr. The role check, then the lookup by code; an organiser must own
    * the ticket's event; a used ticket is refused with its details; otherwise exactly that
    * ticket is marked used and its details, as read before the update, are returned.
    */
  function Redeem(db: Db, user: Principal, codigo: string): (r: Reply<TicketDetails>)
    ensures r.result.Err? ==> r.db == db
    ensures r.result == Err(RoleDenied) <==> !AuthorizeRole(user, StaffRoles)
    ensures r.result == Err(NotFound) <==>
              AuthorizeRole(user, StaffRoles) && forall j :: 0 <= j < |db.tickets| ==> !RowMatches(db, codigo, j)
    ensures r.result == Err(Forbidden) <==>
              AuthorizeRole(user, StaffRoles) && FindRow(db, codigo).Some?
              && !MayValidate(db, user, FindRow(db, codigo).value)
    ensures r.result.Err? && r.result.error.AlreadyUsed? <==>
              AuthorizeRole(user, StaffRoles) && FindRow(db, codigo).Some?
              && MayValidate(db, user, FindRow(db, codigo).value) && db.tickets[FindRow(db, codigo).value].usado
    ensures r.result.Err? && r.result.error.AlreadyUsed? ==>
              r.result.error.ticket == Details(db, FindRow(db, codigo).value)
    ensures r.result.Ok? <==>
              AuthorizeRole(user, StaffRoles) && FindRow(db, codigo).Some?
              && MayValidate(db, user, FindRow(db, codigo).value) && !db.tickets[FindRow(db, codigo).value].usado
    ensures user.rol == Admin ==> r.result != Err(Forbidden)
    ensures r.result.Ok? ==> RedeemEffect(db, r.db, r.result.value, codigo)
  {
    if !AuthorizeRole(user, StaffRoles) then Reply(Err(RoleDenied), db)
    else match FindRow(db, codigo)
      case None => Reply(Err(NotFound), db)
      case Some(i) =>
        var d := Details(db, i);
        if user.rol != Admin && !OwnsEvent(db, user, d.eventoId) then Reply(Err(Forbidden), db)
        else if d.ticket.usado then Reply(Err(AlreadyUsed(d)), db)
        else Reply(Ok(d), db.(tickets := db.tickets[i := db.tickets[i].(usado := true)]))
  }

  /** What a successful redemption does, and all it does: the ticket with that code, unused
      until now, becomes used; every other field and row is untouched. */
  predicate RedeemEffect(db: Db, db': Db, d: TicketDetails, codigo: string) {
    var i := d.id - 1;
    && RowMatches(db, codigo, i)
    && d == Details(db, i)
    && !db.tickets[i].usado
    && db' == db.(tickets := db.tickets[i := db.tickets[i].(usado := true)])
  }

  /** Redemption only ever sets `usado`: a used ticket stays used, and nothing but `usado` changes. */
  lemma RedeemMonotone(db: Db, user: Principal, codigo: string)
    ensures var db' := Redeem(db, user, codigo).db;
            && |db'.tickets| == |db.tickets|
            && (forall j :: 0 <= j < |db.tickets| ==> db'.tickets[j] == db.tickets[j].(usado := db'.tickets[j].usado))
            && (forall j :: 0 <= j < |db.tickets| && db.tickets[j].usado ==> db'.tickets[j].usado)
            && db'.(tickets := db.tickets) == db
  {
  }

  /** Whether a row matches a code depends on neither ticket's `usado` flag. */
  lemma {:induction false} FindRowIgnoresUsado(db: Db, i: nat, codigo: string, k: nat)
    requires i < |db.tickets| && k <= |db.tickets|
    ensures var db' := db.(tickets := db.tickets[i := db.tickets[i].(usado := true)]);
            FindRowFrom(db', codigo, k) == FindRowFrom(db, codigo, k)
    decreases |db.tickets| - k
  {
    var db' := db.(tickets := db.tickets[i := db.tickets[i].(usado := true)]);
    assert RowMatches(db', codigo, k) <==> RowMatches(db, codigo, k);
    if k < |db.tickets| {
      FindRowIgnoresUsado(db, i, codigo, k + 1);
    }
  }

  /** A ticket is redeemed once: right after a successful redemption, the same request is
      refused as already used, with the ticket now marked used, and the tables stay put. */
  lemma RedeemTwice(db: Db, user: Principal, codigo: string)
    requires Redeem(db, user, codigo).result.Ok?
    ensures var first := Redeem(db, user, codigo);
            var second := Redeem(first.db, user, codigo);
            && second.result.Err? && second.result.error.AlreadyUsed?
            && second.result.error.ticket.ticket.usado
            && second.db == first.db
  {
    var first := Redeem(db, user, codigo);
    var i := first.result.value.id - 1;
    FindRowIgnoresUsado(db, i, codigo, 0);
  }

  /** A redemption keeps the store's invariant. */
  lemma RedeemPreservesValid(db: Db, user: Principal, codigo: string)
    requires Valid(db)
    ensures Valid(Redeem(db, user, codigo).db)
  {
    var db' := Redeem(db, user, codigo).db;
    assert forall j :: 0 <= j < |db.tickets| ==> db'.tickets[j].codigo == db.tickets[j].codigo;
  }

  /** The ownership boundary: an organiser redeeming a code of an event that is not theirs is
      refused and changes nothing, while an admin presenting the same code is not refused for it. */
  lemma RedeemOwnership(db: Db, organiser: Principal, admin: Principal, codigo: string)
    requires organiser.rol == Organizer && admin.rol == Admin
    requires FindRow(db, codigo).Some?
    requires !OwnsEvent(db, organiser, Details(db, FindRow(db, codigo).value).eventoId)
    ensures Redeem(db, organiser, codigo) == Reply(Err(Forbidden), db)
    ensures var r := Redeem(db, admin, codigo);
            r.result.Ok? || (r.result.Err? && r.result.error.AlreadyUsed?)
  {
  }

  /**
    * The end-to-end run: a type with one ticket left sells it, refuses a second purchase for
    * lack of stock, and the ticket it sold is redeemed once by the event's organiser and then
    * refused as already used.
    */
  lemma LastTicketScenario(db: Db, tipoId: int, organiser: Principal, c1: string, c2: string)
    requires Valid(db) && organiser.rol == Organizer
    requires tipoId in db.types && db.types[tipoId].stock == 1
    requires OwnsEvent(db, organiser, db.types[tipoId].eventoId)
    requires FreshCodes(db, [c1], 1) && c1 != c2
    ensures var p1 := Purchase(db, "Ana", "ana@example.com", tipoId, 1, "tarjeta_simulada", [c1]);
            var p2 := Purchase(p1.db, "Luis", "luis@example.com", tipoId, 1, "tarjeta_simulada", [c2]);
            var v1 := Redeem(p2.db, organiser, c1);
            var v2 := Redeem(v1.db, organiser, c1);
            && p1.result == Ok(Receipt("Ana", "ana@example.com", [c1]))
            && p1.db.types[tipoId].stock == 0
            && p2.result == Err(InsufficientStock) && p2.db == p1.db
            && v1.result.Ok? && v1.result.value.ticket.codigo == c1
            && v2.result.Err? && v2.result.error.AlreadyUsed?
  {
    var p1 := Purchase(db, "Ana", "ana@example.com", tipoId, 1, "tarjeta_simulada", [c1]);
    assert [c1][..1] == [c1];
    assert p1.result == Ok(Receipt("Ana", "ana@example.com", [c1]));
    var n := |db.tickets|;
    PurchasePreservesValid(db, "Ana", "ana@example.com", tipoId, 1, "tarjeta_simulada", [c1]);
    assert p1.db.tickets[n] == Ticket(|db.clients| + 1, tipoId, c1, "tarjeta_simulada", false);
    assert RowMatches(p1.db, c1, n);
    forall j | 0 <= j < n
      ensures !RowMatches(p1.db, c1, j)
    {
      assert p1.db.tickets[j] == db.tickets[j];
    }
    assert FindRow(p1.db, c1) == Some(n);
    var p2 := Purchase(p1.db, "Luis", "luis@example.com", tipoId, 1, "tarjeta_simulada", [c2]);
    assert p2.result == Err(InsufficientStock) && p2.db == p1.db;
    var v1 := Redeem(p2.db, organiser, c1);
    assert Details(p1.db, n).eventoId == db.types[tipoId].eventoId;
    assert v1.result.Ok? && v1.result.value.ticket.codigo == c1;
    RedeemTwice(p1.db, organiser, c1);
    var v2 := Redeem(v1.db, organiser, c1);
    assert v2.result.Err? && v2.result.error.AlreadyUsed?;
  }

  // ----------------------------------------------------- event administration

  datatype EventInput = EventInput(titulo: string, descripcion: string, fecha: string, lugar: string,
                                   imagenUrl: string)

  /** A ticket type in a request body; `id` is absent for a type the form added. */
  datatype TypeInput = TypeInput(id: Option<int>, nombre: string, precio: int, stock: int)

  /** `if (tipo.id)`: the input carries an id, and it is `id`. */
  predicate Names(t: TypeInput, id: int) {
    TruthyInt(t.id) && t.id.value == id
  }

  function FromInput(eventId: int, t: TypeInput): TicketType {
    TicketType(eventId, t.nombre, t.precio, t.stock)
  }

  /** The insert statement for one type of event `eventId`: the row takes the next serial id. */
  function InsertType(db: Db, eventId: int, t: TypeInput): Db {
    db.(types := db.types[db.nextTypeId := FromInput(eventId, t)], nextTypeId := db.nextTypeId + 1)
  }

  /** The create handler's loop: one insert per type, in the order given. */
  function InsertTypes(db: Db, eventId: int, tipos: seq<TypeInput>): (r: Db)
    ensures r == db.(types := r.types, nextTypeId := db.nextTypeId + |tipos|)
    ensures forall id :: id in r.types <==> id in db.types || db.nextTypeId <= id < db.nextTypeId + |tipos|
    ensures forall id :: id in db.types && id < db.nextTypeId ==> r.types[id] == db.types[id]
    ensures forall k :: 0 <= k < |tipos| ==> r.types[db.nextTypeId + k] == FromInput(eventId, tipos[k])
    decreases |tipos|
  {
    if tipos == [] then db
    else InsertType(InsertTypes(db, eventId, tipos[..|tipos| - 1]), eventId, tipos[|tipos| - 1])
  }

  /**
    * POST /api/eventos: the event, owned by the principal, under the next serial id, then
    * its types, all in one transaction.
    */
  function CreateEvent(db: Db, user: Principal, ev: EventInput, tipos: seq<TypeInput>): (r: Reply<int>)
    ensures r.result.Err? <==> !AuthorizeRole(user, StaffRoles)
    ensures r.result.Err? ==> r.result.error == RoleDenied && r.db == db
    ensures r.result.Ok? ==>
              && r.result.value == db.nextEventId
              && r.db.events == db.events[r.result.value := Event(ev.titulo, ev.descripcion, ev.fecha,
                                                                  ev.lugar, ev.imagenUrl, user.id)]
              && r.db == InsertTypes(db.(events := r.db.events, nextEventId := db.nextEventId + 1),
                                     r.result.value, tipos)
  {
    if !AuthorizeRole(user, StaffRoles) then Reply(Err(RoleDenied), db)
    else
      var id := db.nextEventId;
      var e := Event(ev.titulo, ev.descripcion, ev.fecha, ev.lugar, ev.imagenUrl, user.id);
      Reply(Ok(id), InsertTypes(db.(events := db.events[id := e], nextEventId := id + 1), id, tipos))
  }

  /** One pass of the edit handler's loop: update a type of this event that the input names,
      insert a type for an input without an id, and leave everything else. */
  function UpsertType(db: Db, eventId: int, t: TypeInput): Db {
    if TruthyInt(t.id) then
      if t.id.value in db.types && db.types[t.id.value].eventoId == eventId
      then db.(types := db.types[t.id.value := FromInput(eventId, t)])
      else db
    else InsertType(db, eventId, t)
  }

  /** How many of the inputs come without an id, that is, how many rows the edit inserts. */
  function NewCount(tipos: seq<TypeInput>): (n: nat)
    ensures n <= |tipos|
  {
    if tipos == [] then 0
    else NewCount(tipos[..|tipos| - 1]) + (if TruthyInt(tipos[|tipos| - 1].id) then 0 else 1)
  }

  /** The inputs without an id, in order: the rows the edit inserts. */
  function NewInputs(tipos: seq<TypeInput>): (r: seq<TypeInput>)
    ensures |r| == NewCount(tipos)
  {
    if tipos == [] then []
    else NewInputs(tipos[..|tipos| - 1]) + (if TruthyInt(tipos[|tipos| - 1].id) then [] else [tipos[|tipos| - 1]])
  }

  /** The edit handler's loop over the submitted types. */
  function UpsertTypes(db: Db, eventId: int, tipos: seq<TypeInput>): (r: Db)
    ensures r == db.(types := r.types, nextTypeId := r.nextTypeId)
    ensures r.nextTypeId == db.nextTypeId + NewCount(tipos)
    ensures db.types.Keys <= r.types.Keys
    ensures forall id :: id in r.types && id !in db.types ==>
              db.nextTypeId <= id < r.nextTypeId && r.types[id].eventoId == eventId
    decreases |tipos|
  {
    if tipos == [] then db
    else UpsertType(UpsertTypes(db, eventId, tipos[..|tipos| - 1]), eventId, tipos[|tipos| - 1])
  }

  /** What the upsert leaves alone: a stored type keeps its event, a type of another event
      keeps its values, and so does a type no input names. */
  lemma {:induction false} UpsertKeepsOthers(db: Db, eventId: int, tipos: seq<TypeInput>, id: int)
    requires id in db.types && id < db.nextTypeId
    ensures var r := UpsertTypes(db, eventId, tipos);
            && r.types[id].eventoId == db.types[id].eventoId
            && (db.types[id].eventoId != eventId ==> r.types[id] == db.types[id])
            && ((forall k :: 0 <= k < |tipos| ==> !Names(tipos[k], id)) ==> r.types[id] == db.types[id])
    decreases |tipos|
  {
    if tipos != [] {
      var prefix := tipos[..|tipos| - 1];
      UpsertKeepsOthers(db, eventId, prefix, id);
      var mid := UpsertTypes(db, eventId, prefix);
      var t := tipos[|tipos| - 1];
      assert UpsertTypes(db, eventId, tipos) == UpsertType(mid, eventId, t);
      assert id in mid.types && id < mid.nextTypeId;
      if forall k :: 0 <= k < |tipos| ==> !Names(tipos[k], id) {
        assert forall k :: 0 <= k < |prefix| ==> !Names(prefix[k], id) by {
          forall k | 0 <= k < |prefix| ensures !Names(prefix[k], id) {
            assert prefix[k] == tipos[k];
          }
        }
      }
    }
  }

  /** The edit inserts each input without an id under the next serial ids, in order: the `k`-th
      of them becomes type `nextTypeId + k` of the event, unless an input names that new id. */
  lemma {:induction false} UpsertInsertsNew(db: Db, eventId: int, tipos: seq<TypeInput>, k: nat)
    requires k < NewCount(tipos)
    requires forall j :: 0 <= j < |tipos| ==> !Names(tipos[j], db.nextTypeId + k)
    ensures db.nextTypeId + k in UpsertTypes(db, eventId, tipos).types
    ensures UpsertTypes(db, eventId, tipos).types[db.nextTypeId + k] == FromInput(eventId, NewInputs(tipos)[k])
    decreases |tipos|
  {
    var prefix, last := tipos[..|tipos| - 1], tipos[|tipos| - 1];
    var mid := UpsertTypes(db, eventId, prefix);
    var id := db.nextTypeId + k;
    var r := UpsertTypes(db, eventId, tipos);
    assert r == UpsertType(mid, eventId, last);
    assert NewInputs(tipos) == NewInputs(prefix) + (if TruthyInt(last.id) then [] else [last]);
    assert !Names(last, id);
    if k < NewCount(prefix) {
      assert forall j :: 0 <= j < |prefix| ==> !Names(prefix[j], id) by {
        forall j | 0 <= j < |prefix| ensures !Names(prefix[j], id) {
          assert prefix[j] == tipos[j];
        }
      }
      UpsertInsertsNew(db, eventId, prefix, k);
      assert NewInputs(tipos)[k] == NewInputs(prefix)[k];
      UpsertStepKeeps(mid, eventId, last, id);
    } else {
      assert !TruthyInt(last.id) && mid.nextTypeId == id;
      assert NewInputs(tipos)[k] == last;
      assert r == InsertType(mid, eventId, last);
      assert r.types[id] == FromInput(eventId, last);
    }
  }

  /** One pass of the loop leaves alone a type that its input does not name and does not insert. */
  lemma UpsertStepKeeps(db: Db, eventId: int, t: TypeInput, id: int)
    requires id in db.types && id < db.nextTypeId && !Names(t, id)
    ensures id in UpsertType(db, eventId, t).types && UpsertType(db, eventId, t).types[id] == db.types[id]
  {
  }

  /** Of several inputs naming a type of the edited event, the last one decides its new values. */
  lemma {:induction false} UpsertLastWins(db: Db, eventId: int, tipos: seq<TypeInput>, k: nat)
    requires k < |tipos| && TruthyInt(tipos[k].id)
    requires tipos[k].id.value in db.types && tipos[k].id.value < db.nextTypeId
    requires db.types[tipos[k].id.value].eventoId == eventId
    requires forall j :: k < j < |tipos| ==> !Names(tipos[j], tipos[k].id.value)
    ensures UpsertTypes(db, eventId, tipos).types[tipos[k].id.value] == FromInput(eventId, tipos[k])
    decreases |tipos|
  {
    var id := tipos[k].id.value;
    var prefix := tipos[..|tipos| - 1];
    var mid := UpsertTypes(db, eventId, prefix);
    assert UpsertTypes(db, eventId, tipos) == UpsertType(mid, eventId, tipos[|tipos| - 1]);
    assert id in mid.types && id < mid.nextTypeId;
    if k < |tipos| - 1 {
      UpsertLastWins(db, eventId, prefix, k);
    } else {
      UpsertKeepsOthers(db, eventId, prefix, id);
    }
  }

  /**
    * PUT /api/eventos/:id. An organiser must own the event; then its fields are overwritten
    * (its owner is kept) and the submitted types are upserted, all in one transaction.
    */
  function EditEvent(db: Db, user: Principal, id: int, ev: EventInput, tipos: seq<TypeInput>): (r: Reply<Done>)
    ensures r.result == Err(RoleDenied) <==> !AuthorizeRole(user, StaffRoles)
    ensures r.result == Err(Forbidden) <==>
              AuthorizeRole(user, StaffRoles) && user.rol != Admin && !OwnsEvent(db, user, id)
    ensures r.result.Ok? <==> AuthorizeRole(user, StaffRoles) && (user.rol == Admin || OwnsEvent(db, user, id))
    ensures r.result.Err? ==> r.db == db
    ensures r.result.Ok? ==>
              && r.db.events.Keys == db.events.Keys
              && (forall e :: e in db.events && e != id ==> r.db.events[e] == db.events[e])
              && (id in db.events ==> r.db.events[id] == Event(ev.titulo, ev.descripcion, ev.fecha, ev.lugar,
                                                               ev.imagenUrl, db.events[id].usuarioId))
              && r.db == UpsertTypes(db.(events := r.db.events), id, tipos)
  {
    if !AuthorizeRole(user, StaffRoles) then Reply(Err(RoleDenied), db)
    else if user.rol != Admin && !OwnsEvent(db, user, id) then Reply(Err(Forbidden), db)
    else
      var events := if id in db.events
                     then db.events[id := Event(ev.titulo, ev.descripcion, ev.fecha, ev.lugar, ev.imagenUrl,
                                                db.events[id].usuarioId)]
                     else db.events;
      Reply(Ok(Done), UpsertTypes(db.(events := events), id, tipos))
  }

  /** DELETE /api/eventos/:id: an admin deletes any event, an organiser only one of their own. */
  function DeleteEvent(db: Db, user: Principal, id: int): (r: Reply<Done>)
    ensures r.result == Err(RoleDenied) <==> !AuthorizeRole(user, StaffRoles)
    ensures r.result == Err(Forbidden) <==>
              AuthorizeRole(user, StaffRoles) && user.rol != Admin && !OwnsEvent(db, user, id)
    ensures r.result.Ok? <==> AuthorizeRole(user, StaffRoles) && (user.rol == Admin || OwnsEvent(db, user, id))
    ensures r.result.Err? ==> r.db == db
    ensures r.result.Ok? ==> r.db == db.(events := db.events - {id})
  {
    if !AuthorizeRole(user, StaffRoles) then Reply(Err(RoleDenied), db)
    else if user.rol == Admin then Reply(Ok(Done), db.(events := db.events - {id}))
    else if OwnsEvent(db, user, id) then Reply(Ok(Done), db.(events := db.events - {id}))
    else Reply(Err(Forbidden), db)
  }

  /** Creating an event keeps the store's invariant. */
  lemma CreatePreservesValid(db: Db, user: Principal, ev: EventInput, tipos: seq<TypeInput>)
    requires Valid(db)
    ensures Valid(CreateEvent(db, user, ev, tipos).db)
  {
  }

  /** Editing an event keeps the store's invariant. */
  lemma EditPreservesValid(db: Db, user: Principal, id: int, ev: EventInput, tipos: seq<TypeInput>)
    requires Valid(db)
    ensures Valid(EditEvent(db, user, id, ev, tipos).db)
  {
  }

  /** Deleting an event keeps the store's invariant. */
  lemma DeletePreservesValid(db: Db, user: Principal, id: int)
    requires Valid(db)
    ensures Valid(DeleteEvent(db, user, id).db)
  {
  }

  /** An organiser can change only events of their own: a successful edit or delete by a
      principal who is not an admin was on an event they own. */
  lemma OrganiserScope(db: Db, user: Principal, id: int, ev: EventInput, tipos: seq<TypeInput>)
    requires user.rol != Admin
    ensures EditEvent(db, user, id, ev, tipos).result.Ok? ==> OwnsEvent(db, user, id)
    ensures DeleteEvent(db, user, id).result.Ok? ==> OwnsEvent(db, user, id)
  {
  }

  // ---------------------------------------------------------------- queries

  /** GET /api/mis-eventos: every event for an admin, an organiser's own events otherwise. */
  function MyEvents(db: Db, user: Principal): (r: Result<map<int, Event>, ApiError>)
    ensures r.Err? <==> !AuthorizeRole(user, StaffRoles)
    ensures r.Ok? ==> forall id :: id in r.value <==>
                        id in db.events && (user.rol == Admin || db.events[id].usuarioId == user.id)
    ensures r.Ok? ==> forall id :: id in r.value ==> r.value[id] == db.events[id]
  {
    if !AuthorizeRole(user, StaffRoles) then Err(RoleDenied)
    else Ok(map id | id in db.events && (user.rol == Admin || db.events[id].usuarioId == user.id) :: db.events[id])
  }

  /** One row of the event's ticket list. */
  datatype TicketRow = TicketRow(id: int, codigo: string, usado: bool, metodoPago: string,
                                 tipoEntrada: string, precio: int,
                                 clienteNombre: string, clienteEmail: string)

  /** Ticket `i` is listed for event `eventId`: its type belongs to the event and its client exists. */
  predicate OfEvent(db: Db, eventId: int, i: int) {
    && 0 <= i < |db.tickets|
    && db.tickets[i].tipoId in db.types
    && db.types[db.tickets[i].tipoId].eventoId == eventId
    && 1 <= db.tickets[i].clienteId <= |db.clients|
  }

  function Row(db: Db, i: int): TicketRow
    requires 0 <= i < |db.tickets| && db.tickets[i].tipoId in db.types
    requires 1 <= db.tickets[i].clienteId <= |db.clients|
  {
    var t := db.tickets[i];
    var tipo := db.types[t.tipoId];
    var c := db.clients[t.clienteId - 1];
    TicketRow(i + 1, t.codigo, t.usado, t.metodoPago, tipo.nombre, tipo.precio, c.nombre, c.email)
  }

  /** The rows for the event among the first `n` tickets, in ticket order. */
  function RowsUpTo(db: Db, eventId: int, n: nat): (rows: seq<TicketRow>)
    requires n <= |db.tickets|
    ensures |rows| <= n
    ensures forall j :: 0 <= j < |rows| ==>
              1 <= rows[j].id <= n && OfEvent(db, eventId, rows[j].id - 1) && rows[j] == Row(db, rows[j].id - 1)
    ensures forall j, j' :: 0 <= j < j' < |rows| ==> rows[j].id < rows[j'].id
  {
    if n == 0 then []
    else RowsUpTo(db, eventId, n - 1) + (if OfEvent(db, eventId, n - 1) then [Row(db, n - 1)] else [])
  }

  /** Every ticket of the event is listed. */
  lemma RowsComplete(db: Db, eventId: int, n: nat, i: nat)
    requires n <= |db.tickets| && i < n && OfEvent(db, eventId, i)
    ensures exists j :: 0 <= j < |RowsUpTo(db, eventId, n)| && RowsUpTo(db, eventId, n)[j].id == i + 1
  {
    var j := RowPosition(db, eventId, n, i);
  }

  /** Where ticket `i` of the event sits among the rows. */
  lemma {:induction false} RowPosition(db: Db, eventId: int, n: nat, i: nat) returns (j: nat)
    requires n <= |db.tickets| && i < n && OfEvent(db, eventId, i)
    ensures j < |RowsUpTo(db, eventId, n)| && RowsUpTo(db, eventId, n)[j].id == i + 1
  {
    var rows := RowsUpTo(db, eventId, n);
    var prev := RowsUpTo(db, eventId, n - 1);
    if i == n - 1 {
      assert rows == prev + [Row(db, i)];
      j := |prev|;
    } else {
      j := RowPosition(db, eventId, n - 1, i);
      assert rows[..|prev|] == prev;
      assert rows[j] == prev[j];
    }
  }

  /** GET /api/eventos/:id/tickets: an organiser must own the event; an admin sees any event's. */
  function TicketsOfEvent(db: Db, user: Principal, eventId: int): (r: Result<seq<TicketRow>, ApiError>)
    ensures r == Err(RoleDenied) <==> !AuthorizeRole(user, StaffRoles)
    ensures r == Err(Forbidden) <==>
              AuthorizeRole(user, StaffRoles) && user.rol != Admin && !OwnsEvent(db, user, eventId)
    ensures r.Ok? <==> AuthorizeRole(user, StaffRoles) && (user.rol == Admin || OwnsEvent(db, user, eventId))
    ensures r.Ok? ==> r.value == RowsUpTo(db, eventId, |db.tickets|)
    ensures r.Ok? ==> forall j :: 0 <= j < |r.value| ==> OfEvent(db, eventId, r.value[j].id - 1)
  {
    if !AuthorizeRole(user, StaffRoles) then Err(RoleDenied)
    else if user.rol != Admin && !OwnsEvent(db, user, eventId) then Err(Forbidden)
    else Ok(RowsUpTo(db, eventId, |db.tickets|))
  }

  /** The figures of the dashboard. `usedTickets` is the SQL `SUM` of the used flags, which is
      NULL, here None, when no ticket is counted. */
  datatype Stats = Stats(totalTickets: nat, usedTickets: Option<nat>, revenue: int, totalEvents: nat)

  /** A ticket counts toward the principal's figures: its type exists and, unless the principal
      is an admin, that type's event is theirs. */
  predicate Counted(db: Db, user: Principal, t: Ticket) {
    t.tipoId in db.types && (user.rol == Admin || OwnsEvent(db, user, db.types[t.tipoId].eventoId))
  }

  /** The tickets the principal's figures are taken over, in their order. */
  function Scoped(db: Db, user: Principal, ts: seq<Ticket>): (r: seq<Ticket>)
    ensures |r| <= |ts|
    ensures forall k :: 0 <= k < |r| ==> Counted(db, user, r[k])
  {
    if ts == [] then []
    else Scoped(db, user, ts[..|ts| - 1]) + (if Counted(db, user, ts[|ts| - 1]) then [ts[|ts| - 1]] else [])
  }

  /** The figures miss no ticket: each counted ticket is kept as often as it occurs, and no
      other ticket is. */
  lemma {:induction false} ScopedComplete(db: Db, user: Principal, ts: seq<Ticket>, t: Ticket)
    ensures multiset(Scoped(db, user, ts))[t] == if Counted(db, user, t) then multiset(ts)[t] else 0
  {
    if ts != [] {
      var init, last := ts[..|ts| - 1], ts[|ts| - 1];
      ScopedComplete(db, user, init, t);
      assert ts == init + [last];
      var kept := if Counted(db, user, last) then [last] else [];
      assert Scoped(db, user, ts) == Scoped(db, user, init) + kept;
      assert multiset(ts) == multiset(init) + multiset([last]);
      assert multiset(Scoped(db, user, ts)) == multiset(Scoped(db, user, init)) + multiset(kept);
    }
  }

  function UsedCount(ts: seq<Ticket>): (n: nat)
    ensures n <= |ts|
  {
    if ts == [] then 0 else UsedCount(ts[..|ts| - 1]) + (if ts[|ts| - 1].usado then 1 else 0)
  }

  /** The sum of the prices of the tickets' types. */
  function Revenue(db: Db, ts: seq<Ticket>): int
    requires forall k :: 0 <= k < |ts| ==> ts[k].tipoId in db.types
  {
    if ts == [] then 0 else Revenue(db, ts[..|ts| - 1]) + db.types[ts[|ts| - 1].tipoId].precio
  }

  function EventCount(db: Db, user: Principal): nat {
    |set id | id in db.events && (user.rol == Admin || db.events[id].usuarioId == user.id)|
  }

  /** GET /api/admin/stats: the count, used count and price sum of the principal's tickets,
      and the number of the principal's events. */
  function GetStats(db: Db, user: Principal): (r: Result<Stats, ApiError>)
    ensures r.Err? <==> !AuthorizeRole(user, StaffRoles)
    ensures r.Ok? ==> r.value.totalTickets == |Scoped(db, user, db.tickets)|
    ensures r.Ok? ==> r.value.revenue == Revenue(db, Scoped(db, user, db.tickets))
    ensures r.Ok? && r.value.totalTickets > 0 ==> r.value.usedTickets == Some(UsedCount(Scoped(db, user, db.tickets)))
    ensures r.Ok? ==> r.value.totalEvents == EventCount(db, user)
    ensures r.Ok? ==> (r.value.usedTickets.None? <==> r.value.totalTickets == 0)
    ensures r.Ok? && r.value.usedTickets.Some? ==> r.value.usedTickets.value <= r.value.totalTickets
  {
    if !AuthorizeRole(user, StaffRoles) then Err(RoleDenied)
    else
      var s := Scoped(db, user, db.tickets);
      Ok(Stats(|s|, if |s| == 0 then None else Some(UsedCount(s)), Revenue(db, s), EventCount(db, user)))
  }

  /** The dashboard counts the same events the principal's event list shows. */
  lemma StatsEventsAreMyEvents(db: Db, user: Principal)
    requires AuthorizeRole(user, StaffRoles)
    ensures GetStats(db, user).value.totalEvents == |MyEvents(db, user).value.Keys|
  {
    var mine := MyEvents(db, user).value;
    assert mine.Keys == set id | id in db.events && (user.rol == Admin || db.events[id].usuarioId == user.id);
  }

  predicate PricesNonNegative(db: Db) {
    forall id :: id in db.types ==> db.types[id].precio >= 0
  }

  lemma {:induction false} RevenueNonNegative(db: Db, ts: seq<Ticket>)
    requires PricesNonNegative(db)
    requires forall k :: 0 <= k < |ts| ==> ts[k].tipoId in db.types
    ensures Revenue(db, ts) >= 0
  {
    if ts != [] {
      RevenueNonNegative(db, ts[..|ts| - 1]);
    }
  }

  /** An organiser's figures are a part of the admin's: fewer tickets, fewer used ones, less
      revenue when no price is negative. */
  lemma {:induction false} ScopedWithinAdmin(db: Db, organiser: Principal, admin: Principal, ts: seq<Ticket>)
    requires admin.rol == Admin && PricesNonNegative(db)
    ensures |Scoped(db, organiser, ts)| <= |Scoped(db, admin, ts)|
    ensures UsedCount(Scoped(db, organiser, ts)) <= UsedCount(Scoped(db, admin, ts))
    ensures Revenue(db, Scoped(db, organiser, ts)) <= Revenue(db, Scoped(db, admin, ts))
  {
    if ts != [] {
      var init := ts[..|ts| - 1];
      var last := ts[|ts| - 1];
      ScopedWithinAdmin(db, organiser, admin, init);
      var so := Scoped(db, organiser, ts);
      var sa := Scoped(db, admin, ts);
      if Counted(db, organiser, last) {
        assert so[..|so| - 1] == Scoped(db, organiser, init);
        assert sa[..|sa| - 1] == Scoped(db, admin, init);
      } else if Counted(db, admin, last) {
        assert so == Scoped(db, organiser, init);
        assert sa[..|sa| - 1] == Scoped(db, admin, init);
        assert db.types[last.tipoId].precio >= 0;
      } else {
        assert so == Scoped(db, organiser, init);
        assert sa == Scoped(db, admin, init);
      }
    }
  }

  lemma {:induction false} ScopedAppend(db: Db, user: Principal, a: seq<Ticket>, b: seq<Ticket>)
    ensures Scoped(db, user, a + b) == Scoped(db, user, a) + Scoped(db, user, b)
    decreases |b|
  {
    if b == [] {
      assert a + b == a;
    } else {
      ScopedAppend(db, user, a, b[..|b| - 1]);
      assert (a + b)[..|a + b| - 1] == a + b[..|b| - 1];
      assert (a + b)[|a + b| - 1] == b[|b| - 1];
    }
  }

  lemma {:induction false} RevenueAppend(db: Db, a: seq<Ticket>, b: seq<Ticket>)
    requires forall k :: 0 <= k < |a| ==> a[k].tipoId in db.types
    requires forall k :: 0 <= k < |b| ==> b[k].tipoId in db.types
    ensures Revenue(db, a + b) == Revenue(db, a) + Revenue(db, b)
    decreases |b|
  {
    if b == [] {
      assert a + b == a;
    } else {
      RevenueAppend(db, a, b[..|b| - 1]);
      assert (a + b)[..|a + b| - 1] == a + b[..|b| - 1];
      assert (a + b)[|a + b| - 1] == b[|b| - 1];
    }
  }

  /** Two stores that agree on events and on every type's event and price agree on whom a
      ticket counts for and on what it brings in. */
  lemma {:induction false} ScopedSameTypes(db: Db, db': Db, user: Principal, ts: seq<Ticket>)
    requires db'.events == db.events && db'.types.Keys == db.types.Keys
    requires forall id :: id in db.types ==>
               db'.types[id].eventoId == db.types[id].eventoId && db'.types[id].precio == db.types[id].precio
    ensures Scoped(db', user, ts) == Scoped(db, user, ts)
    ensures Revenue(db', Scoped(db, user, ts)) == Revenue(db, Scoped(db, user, ts))
  {
    if ts != [] {
      ScopedSameTypes(db, db', user, ts[..|ts| - 1]);
      RevenueSameTypes(db, db', Scoped(db, user, ts));
    }
  }

  lemma {:induction false} RevenueSameTypes(db: Db, db': Db, ts: seq<Ticket>)
    requires db'.types.Keys == db.types.Keys
    requires forall id :: id in db.types ==> db'.types[id].precio == db.types[id].precio
    requires forall k :: 0 <= k < |ts| ==> ts[k].tipoId in db.types
    ensures Revenue(db', ts) == Revenue(db, ts)
  {
    if ts != [] {
      RevenueSameTypes(db, db', ts[..|ts| - 1]);
    }
  }

  /** The tickets one purchase issues all count for an admin and bring in their type's price each. */
  lemma {:induction false} IssuedFigures(db: Db, admin: Principal, clienteId: int, tipoId: int,
                                         codes: seq<string>, metodo: string)
    requires admin.rol == Admin && tipoId in db.types
    ensures Scoped(db, admin, IssueTickets(clienteId, tipoId, codes, metodo)) == IssueTickets(clienteId, tipoId, codes, metodo)
    ensures UsedCount(IssueTickets(clienteId, tipoId, codes, metodo)) == 0
    ensures Revenue(db, IssueTickets(clienteId, tipoId, codes, metodo)) == |codes| * db.types[tipoId].precio
    decreases |codes|
  {
    if codes != [] {
      var ts := IssueTickets(clienteId, tipoId, codes, metodo);
      IssuedFigures(db, admin, clienteId, tipoId, codes[..|codes| - 1], metodo);
      assert ts[..|ts| - 1] == IssueTickets(clienteId, tipoId, codes[..|codes| - 1], metodo);
    }
  }

  lemma {:induction false} UsedCountAppend(a: seq<Ticket>, b: seq<Ticket>)
    ensures UsedCount(a + b) == UsedCount(a) + UsedCount(b)
    decreases |b|
  {
    if b == [] {
      assert a + b == a;
    } else {
      UsedCountAppend(a, b[..|b| - 1]);
      assert (a + b)[..|a + b| - 1] == a + b[..|b| - 1];
      assert (a + b)[|a + b| - 1] == b[|b| - 1];
    }
  }

  /** The admin's tickets after the purchase transaction: the ones before, then the issued
      ones, none of them used, each bringing in the type's price. */
  lemma CheckoutAddsToStats(db: Db, admin: Principal, nombre: string, email: string, tipoId: int,
                            cantidad: int, metodo: string, codes: seq<string>)
    requires admin.rol == Admin && tipoId in db.types
    ensures var db' := Checkout(db, nombre, email, tipoId, cantidad, metodo, codes);
            var before := Scoped(db, admin, db.tickets);
            var after := Scoped(db', admin, db'.tickets);
            && |after| == |before| + |codes|
            && UsedCount(after) == UsedCount(before)
            && Revenue(db', after) == Revenue(db, before) + |codes| * db.types[tipoId].precio
  {
    var db' := Checkout(db, nombre, email, tipoId, cantidad, metodo, codes);
    var issued := IssueTickets(|db.clients| + 1, tipoId, codes, metodo);
    var before := Scoped(db, admin, db.tickets);
    ScopedSameTypes(db, db', admin, db.tickets);
    ScopedAppend(db', admin, db.tickets, issued);
    IssuedFigures(db', admin, |db.clients| + 1, tipoId, codes, metodo);
    UsedCountAppend(before, issued);
    RevenueAppend(db', before, issued);
    assert db'.types[tipoId].precio == db.types[tipoId].precio;
  }

  /** Revenue is the sum of the prices of the tickets sold: a purchase of `cantidad` tickets
      adds `cantidad` to the admin's ticket count, nothing to the used count, and `cantidad`
      times the type's price to the revenue. */
  lemma PurchaseAddsToStats(db: Db, admin: Principal, nombre: string, email: string, tipoId: int,
                            cantidad: int, metodo: string, uuids: seq<string>)
    requires admin.rol == Admin && 1 <= cantidad <= |uuids|
    requires Purchase(db, nombre, email, tipoId, cantidad, metodo, uuids).result.Ok?
    ensures var before := GetStats(db, admin).value;
            var after := GetStats(Purchase(db, nombre, email, tipoId, cantidad, metodo, uuids).db, admin).value;
            && after.totalTickets == before.totalTickets + cantidad
            && after.usedTickets == Some(if before.usedTickets.Some? then before.usedTickets.value else 0)
            && after.revenue == before.revenue + cantidad * db.types[tipoId].precio
            && after.totalEvents == before.totalEvents
  {
    var codes := CodesFor(uuids, cantidad);
    var db' := Checkout(db, nombre, email, tipoId, cantidad, metodo, codes);
    assert Purchase(db, nombre, email, tipoId, cantidad, metodo, uuids).db == db';
    assert |codes| == cantidad;
    CheckoutAddsToStats(db, admin, nombre, email, tipoId, cantidad, metodo, codes);
    assert db'.events == db.events;
  }
}
