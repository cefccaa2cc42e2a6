/**
  * The purchase form of an event's page, src/pages/EventoDetalle.tsx: the four error flags the
  * buy button raises, the request it sends when none is raised, the ticket type the selection
  * names, and which options of the selector are disabled.
  */
module EventoDetalle {
  import opened Common
  import opened JsText
  import opened JsNumber
  import Backend

  /** A ticket type of the event as the page receives it; the price stays text. */
  datatype TipoEntrada = TipoEntrada(id: int, nombre: string, precio: string, stock: int)

  /** The flags that mark the form's fields in red. */
  datatype Errors = Errors(nombre: bool, email: bool, tipo: bool, pago: bool)

  const NoErrors: Errors := Errors(false, false, false, false)

  predicate AnyError(e: Errors) {
    e.nombre || e.email || e.tipo || e.pago
  }

  /** The body of the `/api/comprar` request; `tipoEntradaId` is `parseInt` of the selection
      (None is NaN, which the request carries as null). */
  datatype Request = Request(nombre: string, email: string, tipoEntradaId: Option<int>, cantidad: int, metodoPago: string)

  /** Text that holds an `@` is not blank, so it never trims to nothing. */
  lemma AtSignNotBlank(s: string)
    requires Includes(s, "@")
    ensures Trim(s) != ""
  {
    var j := IndexOf(s, "@").value;
    assert s[j..j + 1] == "@";
    assert s[j] == '@';
    TrimEmptyIff(s);
  }

  /**
    * `newErrors`: a name that is only white space, an email without `@` (the blank test of the
    * source adds nothing to that), no selection, and the payment box unticked.
    */
  function NewErrors(nombre: string, email: string, tipoSeleccionado: string, metodoPago: bool): (e: Errors)
    ensures e.nombre <==> forall i :: 0 <= i < |nombre| ==> IsSpace(nombre[i])
    ensures e.email <==> !Includes(email, "@")
    ensures e.tipo <==> tipoSeleccionado == ""
    ensures e.pago <==> !metodoPago
  {
    TrimEmptyIff(nombre);
    if Includes(email, "@") then AtSignNotBlank(email); Errors(Trim(nombre) == "", Trim(email) == "" || !Includes(email, "@"), tipoSeleccionado == "", !metodoPago)
    else Errors(Trim(nombre) == "", Trim(email) == "" || !Includes(email, "@"), tipoSeleccionado == "", !metodoPago)
  }

  /**
    * What `handleCompra` sends: a request exactly when no flag is raised, carrying the name, the
    * email and the quantity as typed, the parsed selection and the simulated card payment.
    */
  function Compra(nombre: string, email: string, tipoSeleccionado: string, cantidad: int, metodoPago: bool): (r: Option<Request>)
    ensures r.Some? <==>
              && (exists i :: 0 <= i < |nombre| && !IsSpace(nombre[i]))
              && Includes(email, "@") && tipoSeleccionado != "" && metodoPago
    ensures r.Some? ==> r.value.nombre == nombre && r.value.email == email && r.value.cantidad == cantidad
    ensures r.Some? ==> r.value.tipoEntradaId == ParseInt(tipoSeleccionado) && r.value.metodoPago == "tarjeta_simulada"
  {
    if AnyError(NewErrors(nombre, email, tipoSeleccionado, metodoPago)) then None
    else Some(Request(nombre, email, ParseInt(tipoSeleccionado), cantidad, "tarjeta_simulada"))
  }

  /** The position of the first type with id `id`, if any. */
  function FirstWithId(tipos: seq<TipoEntrada>, id: int): (r: Option<nat>)
    ensures r.Some? ==> r.value < |tipos| && tipos[r.value].id == id
    ensures r.Some? ==> forall j :: 0 <= j < r.value ==> tipos[j].id != id
    ensures r.None? ==> forall j :: 0 <= j < |tipos| ==> tipos[j].id != id
  {
    if tipos == [] then None
    else if tipos[0].id == id then Some(0)
    else
      match FirstWithId(tipos[1..], id)
      case None => None
      case Some(k) => Some(k + 1)
  }

  /**
    * `tipoActual`: the first type whose id equals `parseInt` of the selection; none when the
    * selection does not parse or no type has that id.
    */
  function TipoActual(tipos: seq<TipoEntrada>, tipoSeleccionado: string): (r: Option<TipoEntrada>)
    ensures r.None? <==> ParseInt(tipoSeleccionado).None?
                         || forall k :: 0 <= k < |tipos| ==> tipos[k].id != ParseInt(tipoSeleccionado).value
    ensures r.Some? ==> r.value in tipos && Some(r.value.id) == ParseInt(tipoSeleccionado)
  {
    match ParseInt(tipoSeleccionado)
    case None => None
    case Some(id) =>
      match FirstWithId(tipos, id)
      case None => None
      case Some(k) => Some(tipos[k])
  }

  /** An option is disabled, and marked sold out, when its type has no stock left. */
  predicate Disabled(t: TipoEntrada) {
    t.stock <= 0
  }

  /** The text of an option: name, price, and the sold-out mark when the option is disabled. */
  function OptionLabel(t: TipoEntrada): string {
    t.nombre + " - $" + t.precio + " " + (if t.stock <= 0 then "(Agotado)" else "")
  }

  /** An option carries the sold-out mark exactly when it is disabled. */
  lemma SoldOutMarked(t: TipoEntrada)
    ensures var text := OptionLabel(t);
            Disabled(t) <==> |text| >= 9 && text[|text| - 9..] == "(Agotado)"
  {
    var text := OptionLabel(t);
    if !Disabled(t) && |text| >= 9 {
      assert text[|text| - 1] == ' ';
      assert text[|text| - 9..][8] == ' ';
    }
  }

  /** The page disables exactly the types the server would refuse: for a type with the stock the
      page shows, a purchase is refused for lack of stock whenever its option is disabled, and one
      ticket is sold exactly when it is not. */
  lemma DisabledMatchesServer(db: Backend.Db, t: TipoEntrada, nombre: string, email: string,
                              cantidad: int, metodo: string, uuids: seq<string>)
    requires t.id in db.types && db.types[t.id].stock == t.stock
    requires nombre != "" && email != "" && t.id != 0 && 1 <= cantidad <= |uuids|
    ensures Disabled(t) ==>
              Backend.Purchase(db, nombre, email, t.id, cantidad, metodo, uuids).result == Err(Backend.InsufficientStock)
    ensures cantidad == 1 ==>
              (Backend.Purchase(db, nombre, email, t.id, cantidad, metodo, uuids).result.Ok? <==> !Disabled(t))
  {
  }

  /** The value of an option is its type's id as text. */
  function OptionValue(t: TipoEntrada): string {
    IntToString(t.id)
  }

  /** Choosing the option of a type selects that type, provided no type before it has the
      same id. */
  lemma SelectOption(tipos: seq<TipoEntrada>, k: nat)
    requires k < |tipos|
    requires forall j :: 0 <= j < k ==> tipos[j].id != tipos[k].id
    ensures TipoActual(tipos, OptionValue(tipos[k])) == Some(tipos[k])
  {
    ParseIntOfIntString(tipos[k].id);
    FirstWithIdFinds(tipos, k);
  }

  /** The search for an id stops at the first type that has it. */
  lemma FirstWithIdFinds(tipos: seq<TipoEntrada>, k: nat)
    requires k < |tipos|
    requires forall j :: 0 <= j < k ==> tipos[j].id != tipos[k].id
    ensures FirstWithId(tipos, tipos[k].id) == Some(k)
  {
  }

  /** While the placeholder is selected no type is current, so the confirm button is disabled;
      when it is enabled, the selection flag cannot be raised. */
  lemma ConfirmNeedsSelection(tipos: seq<TipoEntrada>, tipoSeleccionado: string, nombre: string, email: string, metodoPago: bool)
    ensures TipoActual(tipos, "").None?
    ensures TipoActual(tipos, tipoSeleccionado).Some? ==> !NewErrors(nombre, email, tipoSeleccionado, metodoPago).tipo
  {
    BlankIsNaN("");
  }

  /** The component's state: the inputs, the error flags and the loading indicator. */
  class PurchaseForm {
    var nombre: string
    var email: string
    var tipoSeleccionado: string
    var cantidad: int
    var metodoPago: bool
    var loading: bool
    var errors: Errors

    constructor ()
      ensures nombre == "" && email == "" && tipoSeleccionado == "" && cantidad == 1
      ensures !metodoPago && !loading && errors == NoErrors
    {
      nombre := "";
      email := "";
      tipoSeleccionado := "";
      cantidad := 1;
      metodoPago := false;
      loading := false;
      errors := NoErrors;
    }

    /** Typing a name clears the name flag. */
    method SetNombre(v: string)
      modifies this
      ensures nombre == v && errors == old(errors).(nombre := false)
      ensures email == old(email) && tipoSeleccionado == old(tipoSeleccionado) && cantidad == old(cantidad)
      ensures metodoPago == old(metodoPago) && loading == old(loading)
    {
      nombre := v;
      errors := errors.(nombre := false);
    }

    /** Typing an email clears the email flag. */
    method SetEmail(v: string)
      modifies this
      ensures email == v && errors == old(errors).(email := false)
      ensures nombre == old(nombre) && tipoSeleccionado == old(tipoSeleccionado) && cantidad == old(cantidad)
      ensures metodoPago == old(metodoPago) && loading == old(loading)
    {
      email := v;
      errors := errors.(email := false);
    }

    /** Choosing an option clears the selection flag. */
    method SelectTipo(v: string)
      modifies this
      ensures tipoSeleccionado == v && errors == old(errors).(tipo := false)
      ensures nombre == old(nombre) && email == old(email) && cantidad == old(cantidad)
      ensures metodoPago == old(metodoPago) && loading == old(loading)
    {
      tipoSeleccionado := v;
      errors := errors.(tipo := false);
    }

    /** Ticking or unticking the payment box clears the payment flag. */
    method SetMetodoPago(v: bool)
      modifies this
      ensures metodoPago == v && errors == old(errors).(pago := false)
      ensures nombre == old(nombre) && email == old(email) && tipoSeleccionado == old(tipoSeleccionado)
      ensures cantidad == old(cantidad) && loading == old(loading)
    {
      metodoPago := v;
      errors := errors.(pago := false);
    }

    /**
      * `handleCompra`: the flags are recomputed from the inputs; with none raised the request
      * goes out and, once it settles, the loading indicator is off again. The inputs are kept.
      */
    method HandleCompra() returns (request: Option<Request>)
      modifies this
      ensures errors == NewErrors(nombre, email, tipoSeleccionado, metodoPago)
      ensures request == Compra(nombre, email, tipoSeleccionado, cantidad, metodoPago)
      ensures request.Some? <==> !AnyError(errors)
      ensures loading == (if request.Some? then false else old(loading))
      ensures nombre == old(nombre) && email == old(email) && tipoSeleccionado == old(tipoSeleccionado)
      ensures cantidad == old(cantidad) && metodoPago == old(metodoPago)
    {
      errors := NewErrors(nombre, email, tipoSeleccionado, metodoPago);
      if AnyError(errors) {
        request := None;
        return;
      }
      loading := true;
      request := Some(Request(nombre, email, ParseInt(tipoSeleccionado), cantidad, "tarjeta_simulada"));
      loading := false;
    }
  }
}
