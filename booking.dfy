/**
 * The appointment store of modules/booking_system.py. The JSON document the
 * system keeps in memory, its 'available_slots' and 'booked_appointments'
 * lists, is an AppointmentsData value; booking and cancelling are first given
 * as transitions on that value, and BookingSystem is the object whose fields
 * hold the two lists and whose methods walk and update them in place.
 */
module Booking {
  import opened Common
  import opened Text

  /** One entry of 'available_slots'. */
  datatype Slot = Slot(id: int, date: string, time: string, duration: string,
                       kind: string, available: bool)

  /** The patient_info dict handed in by the caller. */
  type PatientInfo = map<string, string>

  /** One entry of 'booked_appointments'. */
  datatype Booking = Booking(bookingId: string, slotId: int, date: string,
                             time: string, duration: string, kind: string,
                             patientInfo: PatientInfo, status: string,
                             bookedAt: string)

  /** appointments_data; a missing 'booked_appointments' key is the empty list. */
  datatype AppointmentsData = AppointmentsData(slots: seq<Slot>, bookings: seq<Booking>)

  /** The dict book_appointment returns. */
  datatype BookResult = BookResult(success: bool, message: string,
                                   bookingId: Option<string>, details: Option<Booking>)

  /** The dict cancel_booking returns. */
  datatype CancelResult = CancelResult(success: bool, message: string)

  datatype BookOutcome = BookOutcome(data: AppointmentsData, result: BookResult)

  datatype CancelOutcome = CancelOutcome(data: AppointmentsData, result: CancelResult)

  // ---------------------------------------------------------------------
  // Filters over the slot list
  // ---------------------------------------------------------------------

  /** The entries of s that keep accepts, in their stored order. */
  function Select(s: seq<Slot>, keep: Slot -> bool): (r: seq<Slot>)
    ensures |r| <= |s|
    ensures forall x :: x in r ==> x in s && keep(x)
  {
    if s == [] then []
    else
      var front := Select(s[..|s| - 1], keep);
      var last := s[|s| - 1];
      assert forall x :: x in s[..|s| - 1] ==> x in s;
      if keep(last) then front + [last] else front
  }

  /** Filtering a concatenation filters each part: the selected entries keep
      their relative order. */
  lemma {:induction false} SelectAppend(a: seq<Slot>, b: seq<Slot>, keep: Slot -> bool)
    ensures Select(a + b, keep) == Select(a, keep) + Select(b, keep)
    decreases |b|
  {
    if b == [] {
      assert a + b == a;
    } else {
      var b' := b[..|b| - 1];
      assert (a + b)[..|a + b| - 1] == a + b';
      SelectAppend(a, b', keep);
    }
  }

  /** What is selected from a prefix starts what is selected from the whole. */
  lemma SelectPrefix(s: seq<Slot>, n: nat, keep: Slot -> bool)
    requires n <= |s|
    ensures var p := Select(s[..n], keep);
      |p| <= |Select(s, keep)| && Select(s, keep)[..|p|] == p
  {
    SelectAppend(s[..n], s[n..], keep);
    assert s[..n] + s[n..] == s;
  }

  /** Every entry of s that keep accepts is selected. */
  lemma {:induction false} SelectComplete(s: seq<Slot>, keep: Slot -> bool, x: Slot)
    requires x in s && keep(x)
    ensures x in Select(s, keep)
    decreases |s|
  {
    if s[|s| - 1] != x {
      var front := s[..|s| - 1];
      assert s == front + [s[|s| - 1]];
      assert x in front;
      SelectComplete(front, keep, x);
    }
  }

  function IsAvailable(): Slot -> bool
  {
    (s: Slot) => s.available
  }

  function AvailableOn(date: string): Slot -> bool
  {
    (s: Slot) => s.date == date && s.available
  }

  function AvailableOfKind(kind: string): Slot -> bool
  {
    (s: Slot) => Lower(s.kind) == Lower(kind) && s.available
  }

  /** The values field picks out of the available slots of s. */
  function AvailableValues(s: seq<Slot>, field: Slot -> string): (vs: set<string>)
    ensures forall v :: v in vs <==> exists k :: 0 <= k < |s| && s[k].available && field(s[k]) == v
  {
    if s == [] then {}
    else
      var front := s[..|s| - 1];
      var last := s[|s| - 1];
      var vs := AvailableValues(front, field) + (if last.available then {field(last)} else {});
      assert forall k :: 0 <= k < |front| ==> front[k] == s[k];
      vs
  }

  function DateOf(): Slot -> string
  {
    (s: Slot) => s.date
  }

  function KindOf(): Slot -> string
  {
    (s: Slot) => s.kind
  }

  // ---------------------------------------------------------------------
  // Lookups
  // ---------------------------------------------------------------------

  /** The index of the first slot whose id is id. */
  function FindSlot(slots: seq<Slot>, id: int): (r: Option<nat>)
    ensures r.None? <==> forall j :: 0 <= j < |slots| ==> slots[j].id != id
    ensures r.Some? ==>
      r.value < |slots| && slots[r.value].id == id &&
      forall j :: 0 <= j < r.value ==> slots[j].id != id
  {
    if slots == [] then None
    else if slots[0].id == id then Some(0)
    else
      match FindSlot(slots[1..], id)
      case None => None
      case Some(i) => Some(i + 1)
  }

  /** The index of the first booking whose booking_id is id. */
  function FindBooking(bookings: seq<Booking>, id: string): (r: Option<nat>)
    ensures r.None? <==> forall j :: 0 <= j < |bookings| ==> bookings[j].bookingId != id
    ensures r.Some? ==>
      r.value < |bookings| && bookings[r.value].bookingId == id &&
      forall j :: 0 <= j < r.value ==> bookings[j].bookingId != id
  {
    if bookings == [] then None
    else if bookings[0].bookingId == id then Some(0)
    else
      match FindBooking(bookings[1..], id)
      case None => None
      case Some(i) => Some(i + 1)
  }

  // ---------------------------------------------------------------------
  // Booking and cancelling as transitions
  // ---------------------------------------------------------------------

  const NotFoundMessage := "Appointment slot not found."
  const UnavailableMessage := "This appointment slot is no longer available."
  const BookedMessage := "Appointment booked successfully!"
  const BookSaveFailedMessage := "Failed to save booking. Please try again."
  const BookingNotFoundMessage := "Booking not found."
  const CancelledMessage := "Appointment cancelled successfully."
  const CancelSaveFailedMessage := "Failed to cancel booking. Please try again."

  /** The record book_appointment appends for slot, under bookingId. */
  function NewBooking(slot: Slot, slotId: int, patient: PatientInfo,
                      bookingId: string, bookedAt: string): Booking
  {
    Booking(bookingId, slotId, slot.date, slot.time, slot.duration, slot.kind,
            patient, "confirmed", bookedAt)
  }

  /** book_appointment: find the first slot with slotId; fail without a change
      when there is none or it is taken; otherwise append the booking, mark
      the slot taken, and report success only if saving succeeded. The
      booking id, the timestamp and the save result are supplied by the
      caller. */
  function Book(d: AppointmentsData, slotId: int, patient: PatientInfo,
                bookingId: string, bookedAt: string, saved: bool): BookOutcome
  {
    match FindSlot(d.slots, slotId)
    case None => BookOutcome(d, BookResult(false, NotFoundMessage, None, None))
    case Some(i) =>
      var slot := d.slots[i];
      if !slot.available then
        BookOutcome(d, BookResult(false, UnavailableMessage, None, None))
      else
        var booking := NewBooking(slot, slotId, patient, bookingId, bookedAt);
        var d' := AppointmentsData(d.slots[i := slot.(available := false)], d.bookings + [booking]);
        if saved then BookOutcome(d', BookResult(true, BookedMessage, Some(bookingId), Some(booking)))
        else BookOutcome(d', BookResult(false, BookSaveFailedMessage, None, None))
  }

  /** del bookings[k]. */
  function RemoveAt(bs: seq<Booking>, k: nat): (r: seq<Booking>)
    requires k < |bs|
    ensures |r| == |bs| - 1
    ensures forall j :: 0 <= j < |r| ==> r[j] == if j < k then bs[j] else bs[j + 1]
  {
    bs[..k] + bs[k + 1..]
  }

  /** The slot list with the first slot whose id is id marked available. */
  function Reopen(slots: seq<Slot>, id: int): seq<Slot>
  {
    match FindSlot(slots, id)
    case None => slots
    case Some(i) => slots[i := slots[i].(available := true)]
  }

  /** cancel_booking: find the first booking with bookingId; fail without a
      change when there is none; otherwise reopen the first slot with its
      slot id, delete the booking, and report success only if saving
      succeeded. */
  function Cancel(d: AppointmentsData, bookingId: string, saved: bool): CancelOutcome
  {
    match FindBooking(d.bookings, bookingId)
    case None => CancelOutcome(d, CancelResult(false, BookingNotFoundMessage))
    case Some(k) =>
      var d' := AppointmentsData(Reopen(d.slots, d.bookings[k].slotId), RemoveAt(d.bookings, k));
      if saved then CancelOutcome(d', CancelResult(true, CancelledMessage))
      else CancelOutcome(d', CancelResult(false, CancelSaveFailedMessage))
  }

  predicate UniqueSlotIds(slots: seq<Slot>)
  {
    forall i, j :: 0 <= i < j < |slots| ==> slots[i].id != slots[j].id
  }

  predicate OneBookingPerSlot(bookings: seq<Booking>)
  {
    forall k, l :: 0 <= k < l < |bookings| ==> bookings[k].slotId != bookings[l].slotId
  }

  predicate BookedSlotsTaken(slots: seq<Slot>, bookings: seq<Booking>)
  {
    forall k, i :: 0 <= k < |bookings| && 0 <= i < |slots| && slots[i].id == bookings[k].slotId ==>
      !slots[i].available
  }

  /** No two slots share an id, no slot is booked twice, and a booked slot is
      not available. */
  predicate Inv(d: AppointmentsData)
  {
    UniqueSlotIds(d.slots) && OneBookingPerSlot(d.bookings) && BookedSlotsTaken(d.slots, d.bookings)
  }

  /** Which slot is found for an id depends only on the slots' ids. */
  lemma FindSlotSameIds(a: seq<Slot>, b: seq<Slot>, id: int)
    requires |a| == |b| && forall j :: 0 <= j < |a| ==> a[j].id == b[j].id
    ensures FindSlot(a, id) == FindSlot(b, id)
  {
    var ra, rb := FindSlot(a, id), FindSlot(b, id);
    if ra.Some? {
      assert b[ra.value].id == id;
      if rb.Some? {
        assert a[rb.value].id == id;
      }
    }
  }

  /** Under a fresh id, the appended booking is the one found. */
  lemma FindBookingAppended(bs: seq<Booking>, b: Booking, id: string)
    requires forall j :: 0 <= j < |bs| ==> bs[j].bookingId != id
    requires b.bookingId == id
    ensures FindBooking(bs + [b], id) == Some(|bs|)
  {
    var r := FindBooking(bs + [b], id);
    assert (bs + [b])[|bs|].bookingId == id;
    assert forall j :: 0 <= j < |bs| ==> (bs + [b])[j] == bs[j];
  }

  /** An unknown slot id fails, gives no booking id, and changes nothing. */
  lemma BookUnknownSlot(d: AppointmentsData, slotId: int, patient: PatientInfo,
                        bookingId: string, bookedAt: string, saved: bool)
    requires forall j :: 0 <= j < |d.slots| ==> d.slots[j].id != slotId
    ensures Book(d, slotId, patient, bookingId, bookedAt, saved) ==
      BookOutcome(d, BookResult(false, "Appointment slot not found.", None, None))
  {
  }

  /** A slot that is already taken fails with its own message and changes
      nothing. */
  lemma BookTakenSlot(d: AppointmentsData, i: nat, patient: PatientInfo,
                      bookingId: string, bookedAt: string, saved: bool)
    requires i < |d.slots| && !d.slots[i].available
    requires forall j :: 0 <= j < i ==> d.slots[j].id != d.slots[i].id
    ensures Book(d, d.slots[i].id, patient, bookingId, bookedAt, saved) ==
      BookOutcome(d, BookResult(false, "This appointment slot is no longer available.", None, None))
  {
    var r := FindSlot(d.slots, d.slots[i].id);
    assert r == Some(i);
  }

  /** Booking an available slot appends exactly one confirmed record copying
      the slot's details, marks only that slot taken, and keeps every other
      slot and every earlier booking; the result reports success exactly
      when saving succeeded, and the changes stay in memory either way. */
  lemma BookFreeSlot(d: AppointmentsData, i: nat, patient: PatientInfo,
                     bookingId: string, bookedAt: string, saved: bool)
    requires i < |d.slots| && d.slots[i].available
    requires forall j :: 0 <= j < i ==> d.slots[j].id != d.slots[i].id
    ensures var out := Book(d, d.slots[i].id, patient, bookingId, bookedAt, saved);
      var slot := d.slots[i];
      |out.data.slots| == |d.slots| &&
      !out.data.slots[i].available &&
      out.data.slots[i] == slot.(available := false) &&
      (forall j :: 0 <= j < |d.slots| && j != i ==> out.data.slots[j] == d.slots[j]) &&
      out.data.bookings[..|d.bookings|] == d.bookings &&
      |out.data.bookings| == |d.bookings| + 1 &&
      out.data.bookings[|d.bookings|] ==
        Booking(bookingId, slot.id, slot.date, slot.time, slot.duration, slot.kind,
                patient, "confirmed", bookedAt) &&
      out.result.success == saved &&
      (saved ==> out.result.bookingId == Some(bookingId)) &&
      (!saved ==> out.result.bookingId == None)
  {
    var r := FindSlot(d.slots, d.slots[i].id);
    assert r == Some(i);
  }

  /** Once a slot is booked, booking it again fails, however the first
      save went. */
  lemma SecondBookingFails(d: AppointmentsData, slotId: int, patient: PatientInfo,
                           bookingId: string, bookedAt: string, saved: bool,
                           patient2: PatientInfo, bookingId2: string,
                           bookedAt2: string, saved2: bool)
    requires FindSlot(d.slots, slotId).Some?
    ensures var d1 := Book(d, slotId, patient, bookingId, bookedAt, saved).data;
      var out := Book(d1, slotId, patient2, bookingId2, bookedAt2, saved2);
      out.data == d1 && !out.result.success && out.result.bookingId == None &&
      out.result.message == UnavailableMessage
  {
    var d1 := Book(d, slotId, patient, bookingId, bookedAt, saved).data;
    FindSlotSameIds(d1.slots, d.slots, slotId);
  }

  /** Booking preserves the store invariant. */
  lemma BookPreservesInv(d: AppointmentsData, slotId: int, patient: PatientInfo,
                         bookingId: string, bookedAt: string, saved: bool)
    requires Inv(d)
    ensures Inv(Book(d, slotId, patient, bookingId, bookedAt, saved).data)
  {
    match FindSlot(d.slots, slotId)
    case None =>
    case Some(i) =>
      if d.slots[i].available {
        var d1 := Book(d, slotId, patient, bookingId, bookedAt, saved).data;
        var n := |d.bookings|;
        assert d1.slots == d.slots[i := d.slots[i].(available := false)];
        assert d1.bookings == d.bookings + [d1.bookings[n]];
        assert d1.bookings[n].slotId == slotId;
        forall k | 0 <= k < n ensures d.bookings[k].slotId != slotId {
          assert d.slots[i].id == slotId;
        }
        assert OneBookingPerSlot(d1.bookings) by {
          forall k, l | 0 <= k < l < |d1.bookings| ensures d1.bookings[k].slotId != d1.bookings[l].slotId {
            if l < n {
              assert d1.bookings[k] == d.bookings[k] && d1.bookings[l] == d.bookings[l];
            }
          }
        }
        assert BookedSlotsTaken(d1.slots, d1.bookings) by {
          forall k, j | 0 <= k < |d1.bookings| && 0 <= j < |d1.slots| && d1.slots[j].id == d1.bookings[k].slotId
            ensures !d1.slots[j].available
          {
            if j != i {
              assert d1.slots[j] == d.slots[j];
              if k == n {
                assert false;
              }
              assert d1.bookings[k] == d.bookings[k];
            }
          }
        }
      }
  }

  /** An unknown booking id fails and changes nothing. */
  lemma CancelUnknownBooking(d: AppointmentsData, bookingId: string, saved: bool)
    requires forall j :: 0 <= j < |d.bookings| ==> d.bookings[j].bookingId != bookingId
    ensures Cancel(d, bookingId, saved) == CancelOutcome(d, CancelResult(false, "Booking not found."))
  {
  }

  /** Cancelling a known booking deletes the first booking with that id,
      reopens the first slot carrying its slot id, and leaves the rest as
      it was; success is reported exactly when saving succeeded. */
  lemma CancelKnownBooking(d: AppointmentsData, k: nat, saved: bool)
    requires k < |d.bookings|
    requires forall j :: 0 <= j < k ==> d.bookings[j].bookingId != d.bookings[k].bookingId
    ensures var out := Cancel(d, d.bookings[k].bookingId, saved);
      var sid := d.bookings[k].slotId;
      out.data.bookings == d.bookings[..k] + d.bookings[k + 1..] &&
      |out.data.slots| == |d.slots| &&
      (forall j :: 0 <= j < |d.slots| ==>
         out.data.slots[j] == (if FindSlot(d.slots, sid) == Some(j) then d.slots[j].(available := true)
                               else d.slots[j])) &&
      out.result.success == saved
  {
    assert FindBooking(d.bookings, d.bookings[k].bookingId) == Some(k);
  }

  /** Reopening a slot changes no slot id. */
  lemma ReopenSameIds(slots: seq<Slot>, id: int)
    ensures |Reopen(slots, id)| == |slots|
    ensures forall j :: 0 <= j < |slots| ==> Reopen(slots, id)[j].id == slots[j].id
    ensures forall j :: 0 <= j < |slots| && slots[j].id != id ==> Reopen(slots, id)[j] == slots[j]
  {
  }

  /** Deleting a booking keeps one booking per slot, and no remaining
      booking shares the deleted one's slot. */
  lemma RemoveKeepsOnePerSlot(bs: seq<Booking>, k: nat)
    requires k < |bs| && OneBookingPerSlot(bs)
    ensures OneBookingPerSlot(RemoveAt(bs, k))
    ensures forall l :: 0 <= l < |bs| - 1 ==> RemoveAt(bs, k)[l].slotId != bs[k].slotId
  {
    var rest := RemoveAt(bs, k);
    forall a, b | 0 <= a < b < |rest| ensures rest[a].slotId != rest[b].slotId {
      var a' := if a < k then a else a + 1;
      var b' := if b < k then b else b + 1;
      assert rest[a] == bs[a'] && rest[b] == bs[b'];
    }
    forall l | 0 <= l < |rest| ensures rest[l].slotId != bs[k].slotId {
      if l < k {
        assert bs[l].slotId != bs[k].slotId;
      } else {
        assert bs[k].slotId != bs[l + 1].slotId;
      }
    }
  }

  /** Cancelling preserves the store invariant. */
  lemma CancelPreservesInv(d: AppointmentsData, bookingId: string, saved: bool)
    requires Inv(d)
    ensures Inv(Cancel(d, bookingId, saved).data)
  {
    match FindBooking(d.bookings, bookingId)
    case None =>
    case Some(k) =>
      var sid := d.bookings[k].slotId;
      var rest := RemoveAt(d.bookings, k);
      var slots1 := Reopen(d.slots, sid);
      assert Cancel(d, bookingId, saved).data == AppointmentsData(slots1, rest);
      ReopenSameIds(d.slots, sid);
      RemoveKeepsOnePerSlot(d.bookings, k);
      forall l, j | 0 <= l < |rest| && 0 <= j < |slots1| && slots1[j].id == rest[l].slotId
        ensures !slots1[j].available
      {
        var l' := if l < k then l else l + 1;
        assert rest[l] == d.bookings[l'];
        assert slots1[j] == d.slots[j];
      }
  }

  /** Booking a free slot under a fresh booking id and then cancelling that
      id gives back the original slot and booking lists. */
  lemma BookThenCancelRestores(d: AppointmentsData, slotId: int, patient: PatientInfo,
                               bookingId: string, bookedAt: string, saved: bool, saved2: bool)
    requires FindSlot(d.slots, slotId).Some? && d.slots[FindSlot(d.slots, slotId).value].available
    requires forall j :: 0 <= j < |d.bookings| ==> d.bookings[j].bookingId != bookingId
    ensures var d1 := Book(d, slotId, patient, bookingId, bookedAt, saved).data;
      Cancel(d1, bookingId, saved2).data == d
  {
    var i := FindSlot(d.slots, slotId).value;
    var d1 := Book(d, slotId, patient, bookingId, bookedAt, saved).data;
    var nb := d1.bookings[|d.bookings|];
    assert d1.slots == d.slots[i := d.slots[i].(available := false)];
    assert d1.bookings == d.bookings + [nb];
    assert nb.slotId == slotId && nb.bookingId == bookingId;
    FindBookingAppended(d.bookings, nb, bookingId);
    FindSlotSameIds(d1.slots, d.slots, slotId);
    assert RemoveAt(d1.bookings, |d.bookings|) == d.bookings;
    assert Reopen(d1.slots, slotId) == d.slots;
  }

  // ---------------------------------------------------------------------
  // The object
  // ---------------------------------------------------------------------

  class BookingSystem {
    /** appointments_data['available_slots'] */
    var slots: seq<Slot>
    /** appointments_data['booked_appointments'] */
    var bookings: seq<Booking>

    function Data(): AppointmentsData
      reads this
    {
      AppointmentsData(slots, bookings)
    }

    /** __init__ with the document load_appointments read. */
    constructor(loaded: AppointmentsData)
      ensures Data() == loaded
    {
      slots := loaded.slots;
      bookings := loaded.bookings;
    }

    /** get_available_slots: the available slots in stored order, stopping
        once the list has limit entries; a limit below 1 still lets the
        first available slot through. */
    method GetAvailableSlots(limit: int) returns (result: seq<Slot>)
      ensures var all := Select(slots, IsAvailable());
        result == all[..Min(Max(limit, 1), |all|)]
    {
      result := [];
      var i := 0;
      while i < |slots|
        invariant 0 <= i <= |slots|
        invariant result == Select(slots[..i], IsAvailable())
        invariant result == [] || |result| < limit
      {
        var slot := slots[i];
        assert slots[..i + 1] == slots[..i] + [slot];
        SelectAppend(slots[..i], [slot], IsAvailable());
        if slot.available {
          result := result + [slot];
          if |result| >= limit {
            assert |result| == Max(limit, 1);
            SelectPrefix(slots, i + 1, IsAvailable());
            return;
          }
        }
        i := i + 1;
      }
      assert slots[..i] == slots;
    }

    /** get_slots_by_date: the available slots on date, in stored order. */
    method GetSlotsByDate(date: string) returns (result: seq<Slot>)
      ensures result == Select(slots, AvailableOn(date))
    {
      result := [];
      for i := 0 to |slots|
        invariant result == Select(slots[..i], AvailableOn(date))
      {
        var slot := slots[i];
        assert slots[..i + 1] == slots[..i] + [slot];
        SelectAppend(slots[..i], [slot], AvailableOn(date));
        if slot.date == date && slot.available {
          result := result + [slot];
        }
      }
      assert slots[..|slots|] == slots;
    }

    /** get_slots_by_type: the available slots whose type equals kind up to
        case, in stored order. */
    method GetSlotsByType(kind: string) returns (result: seq<Slot>)
      ensures result == Select(slots, AvailableOfKind(kind))
    {
      result := [];
      var wanted := Lower(kind);
      for i := 0 to |slots|
        invariant result == Select(slots[..i], AvailableOfKind(kind))
      {
        var slot := slots[i];
        assert slots[..i + 1] == slots[..i] + [slot];
        SelectAppend(slots[..i], [slot], AvailableOfKind(kind));
        if Lower(slot.kind) == wanted && slot.available {
          result := result + [slot];
        }
      }
      assert slots[..|slots|] == slots;
    }

    /** get_booking_summary: the first booking with bookingId, if any. */
    method GetBookingSummary(bookingId: string) returns (r: Option<Booking>)
      ensures r.None? <==> forall j :: 0 <= j < |bookings| ==> bookings[j].bookingId != bookingId
      ensures r.Some? ==> r.value == bookings[FindBooking(bookings, bookingId).value]
    {
      for i := 0 to |bookings|
        invariant forall j :: 0 <= j < i ==> bookings[j].bookingId != bookingId
      {
        if bookings[i].bookingId == bookingId {
          assert FindBooking(bookings, bookingId) == Some(i);
          return Some(bookings[i]);
        }
      }
      return None;
    }

    /** The set of the field values of the available slots, gathered in a
        loop as get_available_dates and get_available_types do. */
    method CollectAvailable(field: Slot -> string) returns (values: set<string>)
      ensures values == AvailableValues(slots, field)
    {
      values := {};
      for i := 0 to |slots|
        invariant values == AvailableValues(slots[..i], field)
      {
        var slot := slots[i];
        assert slots[..i + 1][..i] == slots[..i];
        if slot.available {
          values := values + {field(slot)};
        }
      }
      assert slots[..|slots|] == slots;
    }

    /** get_available_dates: each date that has an available slot, once, in
        ascending order. */
    method GetAvailableDates() returns (dates: seq<string>)
      ensures StrictlyAscending(dates)
      ensures forall v :: v in dates <==> exists k :: 0 <= k < |slots| && slots[k].available && slots[k].date == v
    {
      var found := CollectAvailable(DateOf());
      dates := SortSet(found);
    }

    /** get_available_types: each type that has an available slot, once, in
        ascending order. */
    method GetAvailableTypes() returns (types: seq<string>)
      ensures StrictlyAscending(types)
      ensures forall v :: v in types <==> exists k :: 0 <= k < |slots| && slots[k].available && slots[k].kind == v
    {
      var found := CollectAvailable(KindOf());
      types := SortSet(found);
    }

    /** book_appointment, updating the two lists in place. */
    method BookAppointment(slotId: int, patient: PatientInfo, bookingId: string,
                           bookedAt: string, saved: bool) returns (result: BookResult)
      modifies this
      ensures Book(old(Data()), slotId, patient, bookingId, bookedAt, saved) == BookOutcome(Data(), result)
      ensures Inv(old(Data())) ==> Inv(Data())
    {
      if Inv(Data()) {
        BookPreservesInv(Data(), slotId, patient, bookingId, bookedAt, saved);
      }
      var index: Option<nat> := None;
      for i := 0 to |slots|
        invariant index == None ==> forall j :: 0 <= j < i ==> slots[j].id != slotId
        invariant index.Some? ==> index == FindSlot(slots, slotId)
      {
        if slots[i].id == slotId {
          index := Some(i);
          assert FindSlot(slots, slotId) == Some(i);
          break;
        }
      }
      if index == None {
        return BookResult(false, NotFoundMessage, None, None);
      }
      var i := index.value;
      var slot := slots[i];
      if !slot.available {
        return BookResult(false, UnavailableMessage, None, None);
      }
      var booking := NewBooking(slot, slotId, patient, bookingId, bookedAt);
      bookings := bookings + [booking];
      slots := slots[i := slot.(available := false)];
      if saved {
        result := BookResult(true, BookedMessage, Some(bookingId), Some(booking));
      } else {
        result := BookResult(false, BookSaveFailedMessage, None, None);
      }
    }

    /** cancel_booking, updating the two lists in place. */
    method CancelBooking(bookingId: string, saved: bool) returns (result: CancelResult)
      modifies this
      ensures Cancel(old(Data()), bookingId, saved) == CancelOutcome(Data(), result)
      ensures Inv(old(Data())) ==> Inv(Data())
    {
      if Inv(Data()) {
        CancelPreservesInv(Data(), bookingId, saved);
      }
      var index: Option<nat> := None;
      for k := 0 to |bookings|
        invariant index == None ==> forall j :: 0 <= j < k ==> bookings[j].bookingId != bookingId
        invariant index.Some? ==> index == FindBooking(bookings, bookingId)
      {
        if bookings[k].bookingId == bookingId {
          index := Some(k);
          assert FindBooking(bookings, bookingId) == Some(k);
          break;
        }
      }
      if index == None {
        return CancelResult(false, BookingNotFoundMessage);
      }
      var k := index.value;
      var slotId := bookings[k].slotId;
      for i := 0 to |slots|
        invariant forall j :: 0 <= j < i ==> slots[j].id != slotId
        invariant slots == old(slots)
      {
        if slots[i].id == slotId {
          assert FindSlot(slots, slotId) == Some(i);
          slots := slots[i := slots[i].(available := true)];
          break;
        }
      }
      bookings := RemoveAt(bookings, k);
      if saved {
        result := CancelResult(true, CancelledMessage);
      } else {
        result := CancelResult(false, CancelSaveFailedMessage);
      }
    }
  }
}
