/**
 * The dashboard page state: the calendar refresh key, the selected event,
 * the event being edited and the two in-flight flags, with the handlers the
 * calendar and the sidebars call. Each asynchronous handler is split at its
 * `await`: a Begin method for the state change before the request and a
 * Finish method for the outcome.
 */
module Dashboard {
  import opened Wrappers
  import FullCalendar
  import UpdateFocusTime
  import opened Time

  /** What the edit form starts from (lines 27-32). */
  datatype EventDetails = EventDetails(id: string, title: string, start: Option<int>, end: Option<int>)

  /** The selected event and whether it counts as a focus block (lines 35-37). */
  datatype SelectedEvent = SelectedEvent(details: EventDetails, isFocusBlock: bool)

  /** The event FullCalendar passes to the click handler. */
  datatype ClickedEvent = ClickedEvent(
    id: string,
    title: string,
    start: Option<int>,
    end: Option<int>,
    extendedProps: map<string, FullCalendar.PropValue>)

  /** The values the edit form submits. */
  datatype EditForm = EditForm(dateTime: int, duration: Option<int>, sessionName: Option<string>, priority: Option<string>)

  /** The body of the delete request (line 155). */
  datatype DeleteRequest = DeleteRequest(eventId: string, calendarId: string)

  /** What the sidebar shows (lines 231-253). */
  datatype Sidebar = EditFormPanel(editing: EventDetails) | DetailsPanel(selected: SelectedEvent) | ControlsPanel

  /** Line 59: `!!extendedProps.isFocusBlock`. */
  function SelectionOf(e: ClickedEvent): (s: SelectedEvent)
    ensures s.details == EventDetails(e.id, e.title, e.start, e.end)
    ensures s.isFocusBlock <==> FullCalendar.Truthy(FullCalendar.Prop(e.extendedProps, "isFocusBlock"))
  {
    SelectedEvent(EventDetails(e.id, e.title, e.start, e.end),
                  FullCalendar.Truthy(FullCalendar.Prop(e.extendedProps, "isFocusBlock")))
  }

  /**
   * The calendar view only ever puts `isFocusTime` and `colorId` into
   * `extendedProps`, so an event it rendered never reads as a focus block
   * here, whatever its summary.
   */
  lemma MappedEventsAreNeverFocusBlocks(a: FullCalendar.ApiEvent, title: string, start: Option<int>, end: Option<int>)
    ensures !SelectionOf(ClickedEvent(a.id, title, start, end, FullCalendar.MapEvent(a).extendedProps)).isFocusBlock
  {
    assert "isFocusBlock" !in FullCalendar.MapEvent(a).extendedProps;
  }

  class DashboardState {
    var calendarKey: int
    var selectedEvent: Option<SelectedEvent>
    var isDeletingEvent: bool
    var isUpdatingEvent: bool
    var editingEventDetails: Option<EventDetails>

    /** The details panel and the edit form are never both open. */
    predicate Valid()
      reads this
    {
      !(selectedEvent.Some? && editingEventDetails.Some?)
    }

    /** Lines 40-46: key 0, nothing selected or edited, nothing in flight. */
    constructor ()
      ensures calendarKey == 0 && selectedEvent.None? && editingEventDetails.None?
      ensures !isDeletingEvent && !isUpdatingEvent
      ensures Valid()
    {
      calendarKey := 0;
      selectedEvent := None;
      isDeletingEvent := false;
      isUpdatingEvent := false;
      editingEventDetails := None;
    }

    /** Lines 231-253: edit form when editing, else details when selected, else the controls. */
    function SidebarShown(): (s: Sidebar)
      reads this
      ensures s.EditFormPanel? <==> editingEventDetails.Some?
      ensures s.DetailsPanel? <==> editingEventDetails.None? && selectedEvent.Some?
      ensures s.EditFormPanel? ==> s.editing == editingEventDetails.value
      ensures s.DetailsPanel? ==> s.selected == selectedEvent.value
    {
      if editingEventDetails.Some? then EditFormPanel(editingEventDetails.value)
      else if selectedEvent.Some? then DetailsPanel(selectedEvent.value)
      else ControlsPanel
    }

    /** Lines 48-53: remount the calendar with a new key and close both panels. */
    method TriggerCalendarRefresh()
      modifies this
      ensures calendarKey == old(calendarKey) + 1
      ensures selectedEvent.None? && editingEventDetails.None?
      ensures isDeletingEvent == old(isDeletingEvent) && isUpdatingEvent == old(isUpdatingEvent)
      ensures Valid() && SidebarShown() == ControlsPanel
    {
      calendarKey := calendarKey + 1;
      selectedEvent := None;
      editingEventDetails := None;
    }

    /** Lines 55-72: leave edit mode and select the clicked event. */
    method HandleEventClick(e: ClickedEvent)
      modifies this
      ensures editingEventDetails.None? && selectedEvent == Some(SelectionOf(e))
      ensures calendarKey == old(calendarKey)
      ensures isDeletingEvent == old(isDeletingEvent) && isUpdatingEvent == old(isUpdatingEvent)
      ensures Valid() && SidebarShown() == DetailsPanel(SelectionOf(e))
    {
      editingEventDetails := None;
      selectedEvent := Some(SelectionOf(e));
    }

    /** Lines 74-76: close the details panel only. */
    method HandleCloseDetails()
      modifies this
      ensures selectedEvent.None? && editingEventDetails == old(editingEventDetails)
      ensures calendarKey == old(calendarKey)
      ensures isDeletingEvent == old(isDeletingEvent) && isUpdatingEvent == old(isUpdatingEvent)
      ensures Valid()
    {
      selectedEvent := None;
    }

    /**
     * Lines 78-93: a selected focus block moves from the details panel to the
     * edit form; in any other state nothing changes.
     */
    method HandleEditEvent()
      modifies this
      ensures old(selectedEvent).Some? && old(selectedEvent).value.isFocusBlock ==>
                editingEventDetails == Some(old(selectedEvent).value.details) && selectedEvent.None?
      ensures !(old(selectedEvent).Some? && old(selectedEvent).value.isFocusBlock) ==>
                editingEventDetails == old(editingEventDetails) && selectedEvent == old(selectedEvent)
      ensures calendarKey == old(calendarKey)
      ensures isDeletingEvent == old(isDeletingEvent) && isUpdatingEvent == old(isUpdatingEvent)
      ensures old(Valid()) ==> Valid()
    {
      if selectedEvent.Some? && selectedEvent.value.isFocusBlock {
        editingEventDetails := Some(selectedEvent.value.details);
        selectedEvent := None;
      }
    }

    /** Lines 95-98: leave edit mode only. */
    method HandleCancelEdit()
      modifies this
      ensures editingEventDetails.None? && selectedEvent == old(selectedEvent)
      ensures calendarKey == old(calendarKey)
      ensures isDeletingEvent == old(isDeletingEvent) && isUpdatingEvent == old(isUpdatingEvent)
      ensures Valid()
    {
      editingEventDetails := None;
    }

    /**
     * Lines 100-121, up to the request: without an event being edited nothing
     * happens; otherwise the update is marked in flight and the PATCH body is
     * built from the edited event's id and the form.
     */
    method BeginUpdateEvent(form: EditForm) returns (payload: Option<UpdateFocusTime.UpdateBody>)
      modifies this
      ensures old(editingEventDetails).None? ==>
                payload.None? && isUpdatingEvent == old(isUpdatingEvent)
      ensures old(editingEventDetails).Some? ==>
                isUpdatingEvent &&
                payload == Some(UpdateFocusTime.UpdateBody(
                  Some(old(editingEventDetails).value.id), TimeAt(form.dateTime),
                  form.duration, form.sessionName, form.priority))
      ensures calendarKey == old(calendarKey) && isDeletingEvent == old(isDeletingEvent)
      ensures selectedEvent == old(selectedEvent) && editingEventDetails == old(editingEventDetails)
    {
      if editingEventDetails.None? {
        return None;
      }
      isUpdatingEvent := true;
      var eventId := editingEventDetails.value.id;
      payload := Some(UpdateFocusTime.UpdateBody(Some(eventId), TimeAt(form.dateTime),
                                                 form.duration, form.sessionName, form.priority));
    }

    /**
     * Lines 123-140, after the response: success refreshes the calendar (and
     * closes both panels), failure keeps the edit form; the in-flight flag is
     * cleared either way.
     */
    method FinishUpdateEvent(succeeded: bool)
      modifies this
      ensures !isUpdatingEvent && isDeletingEvent == old(isDeletingEvent)
      ensures succeeded ==>
                calendarKey == old(calendarKey) + 1 && selectedEvent.None? && editingEventDetails.None?
      ensures !succeeded ==>
                calendarKey == old(calendarKey) && selectedEvent == old(selectedEvent) &&
                editingEventDetails == old(editingEventDetails)
      ensures old(Valid()) ==> Valid()
    {
      if succeeded {
        TriggerCalendarRefresh();
      }
      isUpdatingEvent := false;
    }

    /**
     * Lines 143-155, up to the request: nothing unless the user confirms;
     * then the deletion is marked in flight and the request names the event
     * and its calendar ('primary' by default).
     */
    method BeginDeleteEvent(eventId: string, calendarId: Option<string>, confirmed: bool)
      returns (request: Option<DeleteRequest>)
      modifies this
      ensures request.Some? <==> confirmed
      ensures request.Some? ==> request.value == DeleteRequest(eventId, calendarId.GetOr("primary"))
      ensures isDeletingEvent == (confirmed || old(isDeletingEvent))
      ensures calendarKey == old(calendarKey) && isUpdatingEvent == old(isUpdatingEvent)
      ensures selectedEvent == old(selectedEvent) && editingEventDetails == old(editingEventDetails)
    {
      if !confirmed {
        return None;
      }
      isDeletingEvent := true;
      request := Some(DeleteRequest(eventId, calendarId.GetOr("primary")));
    }

    /** Lines 151-176: success refreshes the calendar; the in-flight flag is cleared either way. */
    method FinishDeleteEvent(succeeded: bool)
      modifies this
      ensures !isDeletingEvent && isUpdatingEvent == old(isUpdatingEvent)
      ensures succeeded ==>
                calendarKey == old(calendarKey) + 1 && selectedEvent.None? && editingEventDetails.None?
      ensures !succeeded ==>
                calendarKey == old(calendarKey) && selectedEvent == old(selectedEvent) &&
                editingEventDetails == old(editingEventDetails)
      ensures old(Valid()) ==> Valid()
    {
      if succeeded {
        TriggerCalendarRefresh();
      }
      isDeletingEvent := false;
    }
  }

  /**
   * The body the edit form sends passes the route's field check exactly when
   * the edited event has an id and the form's duration is positive.
   */
  lemma EditPayloadAccepted(id: string, form: EditForm)
    ensures UpdateFocusTime.HasRequiredFields(
              UpdateFocusTime.UpdateBody(Some(id), TimeAt(form.dateTime), form.duration, form.sessionName, form.priority))
            <==> id != "" && form.duration.Some? && form.duration.value > 0
  {
  }
}
