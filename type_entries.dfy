/**
  * The list of ticket types that the create and edit forms (src/pages/admin/CreateEvent.tsx and
  * src/pages/admin/EditEvent.tsx) keep in their state: entries of text fields, the list
  * operations behind their buttons, and the validation that turns the list into the request's
  * `tipos_entrada`.
  */
module TypeEntries {
  import opened Common
  import opened JsNumber
  import Seqs

  /** One row of the form: the id of a stored type (edit form only), and three text inputs. */
  datatype Entry = Entry(id: Option<int>, nombre: string, precio: string, stock: string)

  /** The entry the add button appends. */
  const Blank: Entry := Entry(None, "", "", "")

  /** The inputs a change handler may write. */
  datatype Field = Nombre | Precio | Stock

  /** The entry with one input overwritten and everything else kept. */
  function WithField(e: Entry, f: Field, v: string): (r: Entry)
    ensures r.id == e.id
    ensures r.nombre == (if f == Nombre then v else e.nombre)
    ensures r.precio == (if f == Precio then v else e.precio)
    ensures r.stock == (if f == Stock then v else e.stock)
  {
    match f
    case Nombre => e.(nombre := v)
    case Precio => e.(precio := v)
    case Stock => e.(stock := v)
  }

  /** `newTypes[index][field] = value` on a copy of the list. */
  function SetField(ts: seq<Entry>, index: int, f: Field, v: string): (r: seq<Entry>)
    requires 0 <= index < |ts|
    ensures |r| == |ts|
    ensures forall k :: 0 <= k < |ts| && k != index ==> r[k] == ts[k]
    ensures r[index] == WithField(ts[index], f, v)
  {
    ts[index := WithField(ts[index], f, v)]
  }

  /** `ts.filter((_, i) => i !== index)`: the entry at `index` dropped, none when it is out of range. */
  function RemoveAt(ts: seq<Entry>, index: int): (r: seq<Entry>)
    ensures 0 <= index < |ts| ==> |r| == |ts| - 1 && r[..index] == ts[..index] && r[index..] == ts[index + 1..]
    ensures !(0 <= index < |ts|) ==> r == ts
  {
    if 0 <= index < |ts| then ts[..index] + ts[index + 1..] else ts
  }

  /** One element of `tipos_entrada` in the request: the price through `parseFloat`, the stock
      through `parseInt`, the id as it was. */
  datatype Payload = Payload(id: Option<int>, nombre: string, precio: Number, stock: int)

  /** The entry passes `!t.nombre || isNaN(t.precio) || isNaN(t.stock)` unflagged. */
  predicate Acceptable(e: Entry) {
    e.nombre != "" && !FloatIsNaN(e.precio) && !IntIsNaN(e.stock)
  }

  function ToPayload(e: Entry): (p: Payload)
    requires Acceptable(e)
    ensures p.id == e.id && p.nombre == e.nombre
    ensures Some(p.precio) == ParseFloat(e.precio) && Some(p.stock) == ParseInt(e.stock)
  {
    Payload(e.id, e.nombre, ParseFloat(e.precio).value, ParseInt(e.stock).value)
  }

  /**
    * Submission: the request body's list when no entry is flagged, None (an error toast and
    * no request) when some entry is. The list keeps the entries' number, order and ids.
    */
  function Validate(ts: seq<Entry>): (r: Option<seq<Payload>>)
    ensures r.Some? <==> forall k :: 0 <= k < |ts| ==> Acceptable(ts[k])
    ensures r.Some? ==> |r.value| == |ts| && forall k :: 0 <= k < |ts| ==> r.value[k] == ToPayload(ts[k])
  {
    Seqs.MapIfAll(ts, Acceptable, ToPayload)
  }

  /** A blank entry can never be submitted: its name, price and stock are all empty. */
  lemma BlankRejected(ts: seq<Entry>, k: nat)
    requires k < |ts| && ts[k] == Blank
    ensures Validate(ts).None?
  {
    assert !Acceptable(ts[k]);
  }

  /** An entry whose price or stock is empty or blank text is flagged. */
  lemma EmptyNumberRejected(e: Entry)
    requires forall i :: 0 <= i < |e.precio| ==> JsText.IsSpace(e.precio[i])
    ensures !Acceptable(e)
  {
    BlankIsNaN(e.precio);
  }
}
