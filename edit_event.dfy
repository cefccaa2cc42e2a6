/**
  * The ticket-type editor of the edit form, src/pages/admin/EditEvent.tsx: the stored types are
  * loaded into text rows that keep their ids, rows of stored types cannot be removed, and the
  * list is validated before the request is sent.
  */
module EditEvent {
  import opened Common
  import opened JsText
  import opened JsNumber
  import opened TypeEntries
  import Seqs

  /** A stored type as the event's data carries it: its id, name, whole-number price and stock. */
  datatype LoadedType = LoadedType(id: int, nombre: string, precio: int, stock: int)

  /** The row a stored type becomes: the id kept, price and stock through `toString()`. */
  function LoadEntry(t: LoadedType): Entry {
    Entry(Some(t.id), t.nombre, IntToString(t.precio), IntToString(t.stock))
  }

  /** The list after the event's data arrives: its types as rows, in their order, when the data
      has a `tipos_entrada`; the list as it was when it has none. */
  function Load(current: seq<Entry>, tipos: Option<seq<LoadedType>>): (r: seq<Entry>)
    ensures tipos.None? ==> r == current
    ensures tipos.Some? ==> |r| == |tipos.value|
    ensures tipos.Some? ==> forall k :: 0 <= k < |r| ==> r[k] == LoadEntry(tipos.value[k])
  {
    match tipos
    case None => current
    case Some(ts) => Seqs.Map(ts, LoadEntry)
  }

  /** The row of a stored type keeps its id and name, and its price and stock text parse back
      to the stored numbers. */
  lemma LoadEntryParsesBack(t: LoadedType)
    ensures LoadEntry(t).id == Some(t.id) && LoadEntry(t).nombre == t.nombre
    ensures ParseFloat(LoadEntry(t).precio) == Some(Finite(t.precio, 0))
    ensures ParseInt(LoadEntry(t).stock) == Some(t.stock)
  {
    ParseFloatOfIntString(t.precio);
    ParseIntOfIntString(t.stock);
  }

  /** What the request sends for a stored type that was not edited. */
  function Unedited(t: LoadedType): Payload {
    Payload(Some(t.id), t.nombre, Finite(t.precio, 0), t.stock)
  }

  /** Loading and submitting without an edit sends the stored types back as they were: ids,
      names, prices and stocks, in order, provided every name is non-empty. */
  lemma LoadSubmitRoundTrip(current: seq<Entry>, ts: seq<LoadedType>)
    requires forall k :: 0 <= k < |ts| ==> ts[k].nombre != ""
    ensures Validate(Load(current, Some(ts))) == Some(Seqs.Map(ts, Unedited))
  {
    var rows := Load(current, Some(ts));
    forall k | 0 <= k < |ts|
      ensures Acceptable(rows[k]) && ToPayload(rows[k]) == Unedited(ts[k])
    {
      LoadedRowSubmits(ts[k]);
    }
    assert Validate(rows).value == Seqs.Map(ts, Unedited);
  }

  /** A stored type with an empty name blocks the submission of the unedited form. */
  lemma EmptyNameBlocksSubmit(current: seq<Entry>, ts: seq<LoadedType>, k: nat)
    requires k < |ts| && ts[k].nombre == ""
    ensures Validate(Load(current, Some(ts))).None?
  {
    var rows := Load(current, Some(ts));
    assert rows[k].nombre == "";
  }

  /** The row of a stored type with a name passes the check and submits the type unchanged. */
  lemma LoadedRowSubmits(t: LoadedType)
    requires t.nombre != ""
    ensures Acceptable(LoadEntry(t)) && ToPayload(LoadEntry(t)) == Unedited(t)
  {
    LoadEntryParsesBack(t);
  }

  /**
    * The list after the remove button of row `index`: a row with a (truthy) id is a stored
    * type and stays, with a warning; any other row is dropped.
    */
  function RemoveTicketType(ts: seq<Entry>, index: int): (r: seq<Entry>)
    requires 0 <= index < |ts|
    ensures TruthyInt(ts[index].id) <==> r == ts
    ensures !TruthyInt(ts[index].id) ==>
              |r| == |ts| - 1 && forall k :: 0 <= k < |r| ==> r[k] == ts[if k < index then k else k + 1]
  {
    if TruthyInt(ts[index].id) then ts else RemoveAt(ts, index)
  }

  /** The ids of the stored types the list holds. */
  function Persisted(ts: seq<Entry>): set<int> {
    set k | 0 <= k < |ts| && TruthyInt(ts[k].id) :: ts[k].id.value
  }

  /** No handler loses a stored type: removing, adding and changing rows keep the set of ids. */
  lemma RemoveKeepsPersisted(ts: seq<Entry>, index: int)
    requires 0 <= index < |ts|
    ensures Persisted(RemoveTicketType(ts, index)) == Persisted(ts)
  {
    var r := RemoveTicketType(ts, index);
    if !TruthyInt(ts[index].id) {
      forall i | i in Persisted(ts)
        ensures i in Persisted(r)
      {
        var k :| 0 <= k < |ts| && TruthyInt(ts[k].id) && ts[k].id.value == i;
        var j := if k < index then k else k - 1;
        assert r[j] == ts[k];
      }
      forall i | i in Persisted(r)
        ensures i in Persisted(ts)
      {
        var j :| 0 <= j < |r| && TruthyInt(r[j].id) && r[j].id.value == i;
        var k := if j < index then j else j + 1;
        assert r[j] == ts[k];
      }
    }
  }

  lemma AddKeepsPersisted(ts: seq<Entry>)
    ensures Persisted(ts + [Blank]) == Persisted(ts)
  {
    var r := ts + [Blank];
    forall i | i in Persisted(r)
      ensures i in Persisted(ts)
    {
      var j :| 0 <= j < |r| && TruthyInt(r[j].id) && r[j].id.value == i;
      assert r[j] == ts[j];
    }
    forall i | i in Persisted(ts)
      ensures i in Persisted(r)
    {
      var k :| 0 <= k < |ts| && TruthyInt(ts[k].id) && ts[k].id.value == i;
      assert r[k] == ts[k];
    }
  }

  lemma ChangeKeepsPersisted(ts: seq<Entry>, index: int, f: Field, v: string)
    requires 0 <= index < |ts|
    ensures Persisted(SetField(ts, index, f, v)) == Persisted(ts)
  {
    var r := SetField(ts, index, f, v);
    assert forall k :: 0 <= k < |ts| ==> r[k].id == ts[k].id;
  }

  /** The component's state that the ticket-type handlers and the loader change. */
  class EditForm {
    var ticketTypes: seq<Entry>

    constructor ()
      ensures ticketTypes == []
    {
      ticketTypes := [];
    }

    /** The loading effect, once the event's data has arrived. */
    method Loaded(tipos: Option<seq<LoadedType>>)
      modifies this
      ensures ticketTypes == Load(old(ticketTypes), tipos)
    {
      if tipos.Some? {
        ticketTypes := Seqs.Map(tipos.value, LoadEntry);
      }
    }

    /** `handleAddTicketType`: one blank row, without an id, at the end. */
    method AddTicketType()
      modifies this
      ensures ticketTypes == old(ticketTypes) + [Blank]
      ensures Persisted(ticketTypes) == Persisted(old(ticketTypes))
    {
      AddKeepsPersisted(ticketTypes);
      ticketTypes := ticketTypes + [Blank];
    }

    /** `handleRemoveTicketType(index)`; `warned` is the warning toast for a stored type. */
    method RemoveTicketTypeAt(index: int) returns (warned: bool)
      requires 0 <= index < |ticketTypes|
      modifies this
      ensures warned == TruthyInt(old(ticketTypes)[index].id)
      ensures ticketTypes == RemoveTicketType(old(ticketTypes), index)
      ensures Persisted(ticketTypes) == Persisted(old(ticketTypes))
    {
      RemoveKeepsPersisted(ticketTypes, index);
      warned := TruthyInt(ticketTypes[index].id);
      if !warned {
        ticketTypes := RemoveAt(ticketTypes, index);
      }
    }

    /** `handleTicketTypeChange(index, field, value)`. */
    method TicketTypeChange(index: int, f: Field, v: string)
      requires 0 <= index < |ticketTypes|
      modifies this
      ensures ticketTypes == SetField(old(ticketTypes), index, f, v)
      ensures Persisted(ticketTypes) == Persisted(old(ticketTypes))
    {
      ChangeKeepsPersisted(ticketTypes, index, f, v);
      ticketTypes := SetField(ticketTypes, index, f, v);
    }
  }
}
