/**
  * The ticket-type editor of the create form, src/pages/admin/CreateEvent.tsx: a list that
  * starts with one 'General' row and never becomes empty, edited row by row and validated
  * before the request is sent.
  */
module CreateEvent {
  import opened Common
  import opened JsNumber
  import opened TypeEntries

  /** The list the form opens with: one row named 'General', price and stock still empty. */
  const Initial: seq<Entry> := [Entry(None, "General", "", "")]

  /**
    * The list after the remove button of row `index`: the row is dropped only while more than
    * one row is left, so a list that has a row keeps one.
    */
  function RemoveTicketType(ts: seq<Entry>, index: int): (r: seq<Entry>)
    ensures |ts| >= 1 ==> |r| >= 1
    ensures |ts| <= 1 || !(0 <= index < |ts|) ==> r == ts
    ensures |ts| > 1 && 0 <= index < |ts| ==>
              |r| == |ts| - 1 && forall k :: 0 <= k < |r| ==> r[k] == ts[if k < index then k else k + 1]
  {
    if |ts| > 1 then RemoveAt(ts, index) else ts
  }

  /** A row of this form never carries the id of a stored type. */
  predicate NoIds(ts: seq<Entry>) {
    forall k :: 0 <= k < |ts| ==> ts[k].id.None?
  }

  /** The form as it opens cannot be submitted: the 'General' row has no price yet. */
  lemma InitialRejected()
    ensures Validate(Initial).None?
  {
    BlankIsNaN(Initial[0].precio);
    assert !Acceptable(Initial[0]);
  }

  /** The component's state that the ticket-type handlers change. */
  class CreateForm {
    var ticketTypes: seq<Entry>

    predicate Valid()
      reads this
    {
      |ticketTypes| >= 1 && NoIds(ticketTypes)
    }

    constructor ()
      ensures ticketTypes == Initial && Valid()
    {
      ticketTypes := Initial;
    }

    /** `handleAddTicketType`: one blank row at the end, the others as they were. */
    method AddTicketType()
      modifies this
      ensures ticketTypes == old(ticketTypes) + [Blank]
      ensures old(Valid()) ==> Valid()
    {
      ticketTypes := ticketTypes + [Blank];
    }

    /** `handleRemoveTicketType(index)`. */
    method RemoveTicketTypeAt(index: int)
      modifies this
      ensures ticketTypes == RemoveTicketType(old(ticketTypes), index)
      ensures old(Valid()) ==> Valid()
    {
      if |ticketTypes| > 1 {
        ticketTypes := RemoveAt(ticketTypes, index);
      }
    }

    /** `handleTicketTypeChange(index, field, value)`: the one input of the one row. */
    method TicketTypeChange(index: int, f: Field, v: string)
      requires 0 <= index < |ticketTypes|
      modifies this
      ensures ticketTypes == SetField(old(ticketTypes), index, f, v)
      ensures old(Valid()) ==> Valid()
    {
      ticketTypes := SetField(ticketTypes, index, f, v);
    }
  }
}
