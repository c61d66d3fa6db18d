/**
 * The customer flow: pick a service, fill the form, submit; a confirmation
 * shows until a timer clears it together with the selection. The booking id,
 * the clock and the timer's firing are inputs.
 */
module CustomerPortal {
  import opened Types
  import opened Constants
  import opened BookingForm
  import App

  /** The booking `handleBooking` builds: pending, for the selected service,
      stamped with the submission time, the form's fields copied verbatim. */
  function NewBooking(data: FormData, service: Service, id: string, now: int): Booking {
    Booking(id, data.name, data.phone, service.id, data.date, data.time, now, Pending)
  }

  class Portal {
    var selectedService: Option<Service>
    var showConfirmation: bool
    /** Timers started by a submission that have not fired yet. */
    var scheduledTimeouts: nat
    /** The mounted booking form, while it is on screen. */
    var form: Form?

    /** Only catalogue services can be selected; the confirmation shows
        exactly while the one timer that will clear it is pending; the form
        is mounted exactly while it is on screen. */
    ghost predicate Valid()
      reads this, form
    {
      && (selectedService.Some? ==> selectedService.value in Services)
      && scheduledTimeouts <= 1
      && (showConfirmation <==> scheduledTimeouts == 1)
      && (form != null <==> FormVisible())
      && (form != null ==> form.Valid())
    }

    /** The booking form is on screen. */
    predicate FormVisible()
      reads this
    {
      selectedService.Some? && !showConfirmation
    }

    constructor ()
      ensures Valid()
      ensures selectedService == None && !showConfirmation && scheduledTimeouts == 0 && form == null
    {
      selectedService, showConfirmation, scheduledTimeouts, form := None, false, 0, null;
    }

    /** A service card's `onSelect`. When the form was not on screen and now
        appears, it is mounted afresh with empty fields; when it was on
        screen, it keeps what was typed. */
    method Select(service: Service, today: string)
      requires Valid() && service in Services
      modifies this
      ensures Valid()
      ensures selectedService == Some(service)
      ensures showConfirmation == old(showConfirmation) && scheduledTimeouts == old(scheduledTimeouts)
      ensures old(FormVisible()) ==> form == old(form)
      ensures !old(FormVisible()) && !showConfirmation ==>
        fresh(form) && form.formData == FormData("", "", today, TimeSlots[0])
      ensures showConfirmation ==> form == null
    {
      if !FormVisible() && !showConfirmation {
        form := new Form(today);
      }
      selectedService := Some(service);
    }

    /** The form's `onCancel`: the selection is cleared, so the form is
        unmounted. */
    method Cancel()
      requires Valid() && FormVisible()
      modifies this
      ensures Valid() && !FormVisible()
      ensures selectedService == None && form == null
      ensures showConfirmation == old(showConfirmation) && scheduledTimeouts == old(scheduledTimeouts)
    {
      selectedService, form := None, null;
    }

    /** `handleBooking`, wired to the app's `addBooking`. With no service
        selected nothing happens; otherwise exactly one booking is appended
        to the store, the confirmation shows, the form is unmounted and a
        timer is started. */
    method HandleBooking(data: FormData, id: string, now: int, store: App.BookingStore)
      returns (emitted: Option<Booking>)
      requires Valid() && store.Valid() && !showConfirmation
      modifies this, store
      ensures Valid() && store.Valid()
      ensures old(selectedService).None? ==>
        && emitted.None?
        && store.bookings == old(store.bookings)
        && selectedService == old(selectedService)
        && showConfirmation == old(showConfirmation)
        && scheduledTimeouts == old(scheduledTimeouts)
        && form == old(form)
      ensures old(selectedService).Some? ==>
        && emitted.Some?
        && emitted.value.status == Pending
        && emitted.value.serviceId == old(selectedService).value.id
        && emitted.value.createdAt == now && emitted.value.id == id
        && emitted.value.customerName == data.name && emitted.value.phoneNumber == data.phone
        && emitted.value.date == data.date && emitted.value.time == data.time
        && store.bookings == old(store.bookings) + [emitted.value]
        && selectedService == old(selectedService)
        && showConfirmation && !FormVisible() && form == null
        && scheduledTimeouts == 1
    {
      if selectedService.None? {
        return None;
      }
      var b := NewBooking(data, selectedService.value, id, now);
      store.AddBooking(b);
      showConfirmation, form := true, null;
      scheduledTimeouts := scheduledTimeouts + 1;
      emitted := Some(b);
    }

    /** The form's submit, available while the form is on screen: its
        guard, then `handleBooking` on the record. */
    method Submit(id: string, now: int, store: App.BookingStore)
      returns (emitted: Option<Booking>)
      requires Valid() && store.Valid() && FormVisible()
      modifies this, store
      ensures Valid() && store.Valid()
      ensures emitted.Some? <==> CanSubmit(old(form.formData))
      ensures emitted.Some? ==>
        && emitted.value == NewBooking(old(form.formData), old(selectedService).value, id, now)
        && emitted.value.status == Pending
        && store.bookings == old(store.bookings) + [emitted.value]
        && showConfirmation && scheduledTimeouts == 1 && form == null
        && selectedService == old(selectedService)
      ensures emitted.None? ==>
        && store.bookings == old(store.bookings)
        && selectedService == old(selectedService)
        && showConfirmation == old(showConfirmation)
        && scheduledTimeouts == old(scheduledTimeouts)
        && form == old(form)
    {
      var data := form.HandleSubmit();
      if data.None? {
        return None;
      }
      emitted := HandleBooking(data.value, id, now, store);
    }

    /** The pending timer fires: the confirmation closes and the selection
        is cleared, which leaves the portal with nothing selected. */
    method Timeout()
      requires Valid() && scheduledTimeouts > 0
      modifies this
      ensures Valid()
      ensures !showConfirmation && selectedService == None && !FormVisible() && form == null
      ensures scheduledTimeouts == old(scheduledTimeouts) - 1
    {
      showConfirmation := false;
      selectedService := None;
      scheduledTimeouts := scheduledTimeouts - 1;
    }
  }

  /** A customer's booking names a catalogue service, so once completed on
      its date it adds that service's positive price to the day's income. */
  lemma CustomerBookingEarns(data: FormData, service: Service, id: string, now: int)
    requires service in Services
    ensures PriceOf(NewBooking(data, service, id, now).serviceId) == service.price > 0
  {
    FindServiceOfEntry(service);
    PricesInRange();
  }
}
