/**
  * The ticket store as the server holds it: one object whose fields are the tables, and whose
  * methods are the state-changing handlers of backend/src/index.ts, each run as one atomic step.
  * Every method is proved to answer and to leave the tables exactly as the matching function of
  * module Backend says, and to keep the store's invariant.
  */
module Store {
  import opened Common
  import opened Backend

  class TicketStore {
    var events: map<int, Event>
    var types: map<int, TicketType>
    var clients: seq<Client>
    var tickets: seq<Ticket>
    var nextEventId: int
    var nextTypeId: int

    /** The tables as one value. */
    function Tables(): Db
      reads this
    {
      Db(events, types, clients, tickets, nextEventId, nextTypeId)
    }

    predicate Valid()
      reads this
    {
      Backend.Valid(Tables())
    }

    constructor ()
      ensures Tables() == EmptyDb && Valid()
    {
      events := map[];
      types := map[];
      clients := [];
      tickets := [];
      nextEventId := 1;
      nextTypeId := 1;
    }

    /** POST /api/comprar: the checks, then the client row, then one ticket per code, then the stock. */
    method Purchase(nombre: string, email: string, tipoId: int, cantidad: int, metodo: string,
                    uuids: seq<string>) returns (r: Result<Receipt, ApiError>)
      requires cantidad <= |uuids|
      modifies this
      ensures Reply(r, Tables()) == Backend.Purchase(old(Tables()), nombre, email, tipoId, cantidad, metodo, uuids)
      ensures old(Valid()) && FreshCodes(old(Tables()), uuids, cantidad) ==> Valid()
    {
      if MissingFields(nombre, email, tipoId, cantidad) {
        return Err(MissingData);
      }
      if tipoId !in types {
        return Err(InvalidType);
      }
      var tipo := types[tipoId];
      if tipo.stock < cantidad {
        return Err(InsufficientStock);
      }
      ghost var before := Tables();
      clients := clients + [Client(nombre, email)];
      var codes := IssueAll(|clients|, tipoId, cantidad, metodo, uuids);
      types := types[tipoId := tipo.(stock := tipo.stock - cantidad)];
      r := Ok(Receipt(nombre, email, codes));
      if Backend.Valid(before) && FreshCodes(before, uuids, cantidad) {
        PurchasePreservesValid(before, nombre, email, tipoId, cantidad, metodo, uuids);
      }
    }

    /** The purchase's ticket loop: one unused ticket per generated code, appended in order. */
    method IssueAll(clienteId: int, tipoId: int, cantidad: int, metodo: string, uuids: seq<string>)
      returns (codes: seq<string>)
      requires cantidad <= |uuids|
      modifies this
      ensures codes == CodesFor(uuids, cantidad)
      ensures Tables() == old(Tables()).(tickets := old(tickets) + IssueTickets(clienteId, tipoId, codes, metodo))
    {
      codes := [];
      var i := 0;
      while i < cantidad
        invariant 0 <= i <= (if cantidad > 0 then cantidad else 0)
        invariant codes == uuids[..i]
        invariant Tables() == old(Tables()).(tickets := old(tickets) + IssueTickets(clienteId, tipoId, codes, metodo))
      {
        var codigo := uuids[i];
        assert (codes + [codigo])[..|codes|] == codes;
        tickets := tickets + [Ticket(clienteId, tipoId, codigo, metodo, false)];
        codes := codes + [codigo];
        i := i + 1;
      }
    }

    /** The validation query: the index of the first ticket with that code that survives the joins. */
    method FindRow(codigo: string) returns (r: Option<nat>)
      ensures r == Backend.FindRow(Tables(), codigo)
      ensures r.Some? ==> RowMatches(Tables(), codigo, r.value)
      ensures r.None? ==> forall j :: 0 <= j < |tickets| ==> !RowMatches(Tables(), codigo, j)
    {
      var i := 0;
      while i < |tickets|
        invariant 0 <= i <= |tickets|
        invariant Backend.FindRow(Tables(), codigo) == FindRowFrom(Tables(), codigo, i)
      {
        if RowMatches(Tables(), codigo, i) {
          return Some(i);
        }
        i := i + 1;
      }
      return None;
    }

    /** POST /api/validar-qr: look the code up, check ownership and the used flag, then set it. */
    method Redeem(user: Principal, codigo: string) returns (r: Result<TicketDetails, ApiError>)
      modifies this
      ensures Reply(r, Tables()) == Backend.Redeem(old(Tables()), user, codigo)
      ensures old(Valid()) ==> Valid()
    {
      ghost var before := Tables();
      if Backend.Valid(before) {
        RedeemPreservesValid(before, user, codigo);
      }
      if !AuthorizeRole(user, StaffRoles) {
        return Err(RoleDenied);
      }
      var found := FindRow(codigo);
      if found.None? {
        return Err(NotFound);
      }
      var i := found.value;
      var d := Details(Tables(), i);
      if user.rol != Admin && !OwnsEvent(Tables(), user, d.eventoId) {
        return Err(Forbidden);
      }
      if d.ticket.usado {
        return Err(AlreadyUsed(d));
      }
      tickets := tickets[i := tickets[i].(usado := true)];
      r := Ok(d);
    }

    /** POST /api/eventos: insert the event, then each of its types in order. */
    method CreateEvent(user: Principal, ev: EventInput, tipos: seq<TypeInput>) returns (r: Result<int, ApiError>)
      modifies this
      ensures Reply(r, Tables()) == Backend.CreateEvent(old(Tables()), user, ev, tipos)
      ensures old(Valid()) ==> Valid()
    {
      ghost var before := Tables();
      if Backend.Valid(before) {
        CreatePreservesValid(before, user, ev, tipos);
      }
      if !AuthorizeRole(user, StaffRoles) {
        return Err(RoleDenied);
      }
      var id := nextEventId;
      events := events[id := Event(ev.titulo, ev.descripcion, ev.fecha, ev.lugar, ev.imagenUrl, user.id)];
      nextEventId := id + 1;
      ghost var mid := Tables();
      assert mid == before.(events := events, nextEventId := id + 1);
      InsertAll(id, tipos);
      assert Backend.CreateEvent(before, user, ev, tipos) == Reply(Ok(id), InsertTypes(mid, id, tipos));
      r := Ok(id);
    }

    /** The create handler's loop: one insert per type, in the order given. */
    method InsertAll(id: int, tipos: seq<TypeInput>)
      modifies this
      ensures Tables() == InsertTypes(old(Tables()), id, tipos)
    {
      var k := 0;
      while k < |tipos|
        invariant 0 <= k <= |tipos|
        invariant Tables() == InsertTypes(old(Tables()), id, tipos[..k])
      {
        assert tipos[..k + 1][..k] == tipos[..k];
        types := types[nextTypeId := FromInput(id, tipos[k])];
        nextTypeId := nextTypeId + 1;
        k := k + 1;
      }
      assert tipos[..k] == tipos;
    }

    /** PUT /api/eventos/:id: the ownership check, the event's fields, then the type upserts. */
    method EditEvent(user: Principal, id: int, ev: EventInput, tipos: seq<TypeInput>) returns (r: Result<Done, ApiError>)
      modifies this
      ensures Reply(r, Tables()) == Backend.EditEvent(old(Tables()), user, id, ev, tipos)
      ensures old(Valid()) ==> Valid()
    {
      ghost var before := Tables();
      if Backend.Valid(before) {
        EditPreservesValid(before, user, id, ev, tipos);
      }
      if !AuthorizeRole(user, StaffRoles) {
        return Err(RoleDenied);
      }
      if user.rol != Admin && !OwnsEvent(Tables(), user, id) {
        return Err(Forbidden);
      }
      if id in events {
        events := events[id := Event(ev.titulo, ev.descripcion, ev.fecha, ev.lugar, ev.imagenUrl,
                                     events[id].usuarioId)];
      }
      UpsertAll(id, tipos);
      r := Ok(Done);
    }

    /** The edit handler's loop: update a named type of the event, insert a type without an id. */
    method UpsertAll(id: int, tipos: seq<TypeInput>)
      modifies this
      ensures Tables() == UpsertTypes(old(Tables()), id, tipos)
    {
      var k := 0;
      while k < |tipos|
        invariant 0 <= k <= |tipos|
        invariant Tables() == UpsertTypes(old(Tables()), id, tipos[..k])
      {
        assert tipos[..k + 1][..k] == tipos[..k];
        var t := tipos[k];
        ghost var before := Tables();
        assert UpsertTypes(old(Tables()), id, tipos[..k + 1]) == UpsertType(before, id, t);
        if TruthyInt(t.id) {
          if t.id.value in types && types[t.id.value].eventoId == id {
            types := types[t.id.value := FromInput(id, t)];
          }
        } else {
          types := types[nextTypeId := FromInput(id, t)];
          nextTypeId := nextTypeId + 1;
        }
        assert Tables() == UpsertType(before, id, t);
        k := k + 1;
      }
      assert tipos[..k] == tipos;
    }

    /** DELETE /api/eventos/:id. */
    method DeleteEvent(user: Principal, id: int) returns (r: Result<Done, ApiError>)
      modifies this
      ensures Reply(r, Tables()) == Backend.DeleteEvent(old(Tables()), user, id)
      ensures old(Valid()) ==> Valid()
    {
      if Valid() {
        DeletePreservesValid(Tables(), user, id);
      }
      if !AuthorizeRole(user, StaffRoles) {
        return Err(RoleDenied);
      }
      if user.rol != Admin && !OwnsEvent(Tables(), user, id) {
        return Err(Forbidden);
      }
      events := events - {id};
      r := Ok(Done);
    }
  }
}
