/** The appointment form: the service checklist, the default end time of a
    new appointment, and the writes that save or delete an appointment
    together with its service links. */
module Appointments {

  import opened Types
  import opened Seqs
  import opened Text
  import opened Store

  // ---------------------------------------------------------------------
  // The service checklist

  /** `toggleService`: a selected service is unselected (every occurrence
      removed), an unselected one is appended. */
  function Toggle(selected: seq<nat>, serviceId: nat): (r: seq<nat>)
    ensures serviceId in r <==> serviceId !in selected
    ensures forall x :: x != serviceId ==> (x in r <==> x in selected)
    ensures serviceId in selected ==> IsSubsequence(r, selected)
    ensures serviceId !in selected ==> r == selected + [serviceId]
  {
    if serviceId in selected then
      FilterIsSubsequence(selected, (x: nat) => x != serviceId);
      Filter(selected, (x: nat) => x != serviceId)
    else selected + [serviceId]
  }

  /** Selecting an unselected service and unselecting it again restores
      the selection exactly. */
  lemma {:induction false} ToggleTwice(selected: seq<nat>, serviceId: nat)
    requires serviceId !in selected
    ensures Toggle(Toggle(selected, serviceId), serviceId) == selected
  {
    var f := (x: nat) => x != serviceId;
    FilterAppend(selected, [serviceId], f);
    FilterKeepsAll(selected, f);
    assert Filter([serviceId], f) == [];
  }

  /** No service is listed twice. */
  predicate Distinct(s: seq<nat>)
  {
    forall i, j :: 0 <= i < j < |s| ==> s[i] != s[j]
  }

  lemma {:induction false} FilterDistinct(s: seq<nat>, f: nat -> bool)
    requires Distinct(s)
    ensures Distinct(Filter(s, f))
    decreases |s|
  {
    if s != [] {
      FilterDistinct(s[1..], f);
      var rest := Filter(s[1..], f);
      if f(s[0]) {
        assert s[0] !in s[1..];
        var r := [s[0]] + rest;
        forall i, j | 0 <= i < j < |r|
          ensures r[i] != r[j]
        {
          if i == 0 {
            assert r[j] in rest;
          }
        }
      }
    }
  }

  /** Starting from an empty checklist, toggling never lists a service twice. */
  lemma ToggleKeepsDistinct(selected: seq<nat>, serviceId: nat)
    requires Distinct(selected)
    ensures Distinct(Toggle(selected, serviceId))
  {
    if serviceId in selected {
      FilterDistinct(selected, (x: nat) => x != serviceId);
    }
  }

  // ---------------------------------------------------------------------
  // The default end time

  /** The end time a new appointment starts with: one hour after the start
      hour, written `HH:00`; `23:59` when that reaches midnight; `NaN:00`
      when the start time has no leading hour digits. */
  function EndTimeDefault(startTime: string): (r: string)
    ensures HourOf(startTime).None? ==> r == "NaN:00"
    ensures HourOf(startTime).Some? && HourOf(startTime).value >= 23 ==> r == "23:59"
    ensures HourOf(startTime).Some? && HourOf(startTime).value < 23 ==>
      |r| == 5 && AllDigits(r[..2]) && r[2..] == ":00" && HourOf(r) == Some(HourOf(startTime).value + 1)
  {
    match HourOf(startTime)
    case None => "NaN:00"
    case Some(h) =>
      if h + 1 >= 24 then "23:59"
      else
        PaddedHour(h + 1);
        PadStart2(NatToString(h + 1)) + ":00"
  }

  /** The text before the first colon of `d + ":" + rest`, for a colon-free `d`. */
  lemma {:induction false} BeforeColonOf(d: string, rest: string)
    requires ':' !in d
    ensures BeforeColon(d + ":" + rest) == d
    decreases |d|
  {
    if d != [] {
      assert (d + ":" + rest)[1..] == d[1..] + ":" + rest;
      BeforeColonOf(d[1..], rest);
    }
  }

  /** A string of digits is its own longest digit prefix. */
  lemma {:induction false} LeadingDigitsAll(d: string)
    requires AllDigits(d)
    ensures LeadingDigits(d) == d
    decreases |d|
  {
    if d != [] {
      LeadingDigitsAll(d[1..]);
    }
  }

  /** Zero-padding a number's text keeps its value. */
  lemma PadStart2Value(n: nat)
    ensures AllDigits(PadStart2(NatToString(n)))
    ensures DigitsValue(PadStart2(NatToString(n))) == n
  {
    var s := NatToString(n);
    NatToStringRoundTrip(n);
    if |s| < 2 {
      assert PadStart2(s) == "0" + s;
      LeadingZero(s);
    }
  }

  /** `HH:00` for an hour below 24 is five characters and reads back as that hour. */
  lemma PaddedHour(n: nat)
    requires n < 24
    ensures |PadStart2(NatToString(n)) + ":00"| == 5
    ensures AllDigits((PadStart2(NatToString(n)) + ":00")[..2])
    ensures (PadStart2(NatToString(n)) + ":00")[2..] == ":00"
    ensures HourOf(PadStart2(NatToString(n)) + ":00") == Some(n)
  {
    var d := PadStart2(NatToString(n));
    PadStart2Value(n);
    assert |NatToString(n)| <= 2 by {
      if n >= 10 {
        assert |NatToString(n / 10)| == 1;
      }
    }
    SlotText(d);
  }

  /** Two digits followed by `:00` are five characters and read back as
      the digits' value. */
  lemma SlotText(d: string)
    requires |d| == 2 && AllDigits(d)
    ensures |d + ":00"| == 5
    ensures AllDigits((d + ":00")[..2])
    ensures (d + ":00")[2..] == ":00"
    ensures HourOf(d + ":00") == Some(DigitsValue(d))
  {
    assert (d + ":00")[..2] == d;
    assert ':' !in d by {
      forall i | 0 <= i < |d|
        ensures d[i] != ':'
      {
        assert IsDigit(d[i]);
      }
    }
    BeforeColonOf(d, "00");
    assert d + ":00" == d + ":" + "00";
    LeadingDigitsAll(d);
  }

  // ---------------------------------------------------------------------
  // Saving and deleting

  /** The links the save loop creates: one per selected service, quantity 1,
      under consecutive ids from the key generator. */
  function NewLinks(appointmentId: nat, services: seq<nat>, firstId: nat): (r: seq<AppointmentLink>)
    ensures |r| == |services|
    ensures forall i :: 0 <= i < |services| ==> r[i] == AppointmentLink(firstId + i, appointmentId, services[i], 1)
  {
    if services == [] then []
    else
      NewLinks(appointmentId, services[..|services| - 1], firstId)
        + [AppointmentLink(firstId + |services| - 1, appointmentId, services[|services| - 1], 1)]
  }

  /** `aptServices.map(as => as.service_id)`. */
  function ServiceIds(links: seq<AppointmentLink>): (r: seq<nat>)
    ensures |r| == |links|
    ensures forall i :: 0 <= i < |links| ==> r[i] == links[i].serviceId
  {
    seq(|links|, i requires 0 <= i < |links| => links[i].serviceId)
  }

  /** The services of the created links are the selection, in order. */
  lemma NewLinksServices(appointmentId: nat, services: seq<nat>, firstId: nat)
    ensures ServiceIds(NewLinks(appointmentId, services, firstId)) == services
  {
    forall i | 0 <= i < |services|
      ensures ServiceIds(NewLinks(appointmentId, services, firstId))[i] == services[i]
    {
    }
  }

  /** All created links belong to the appointment they were created for. */
  lemma NewLinksOwner(appointmentId: nat, services: seq<nat>, firstId: nat)
    ensures forall k :: k in NewLinks(appointmentId, services, firstId) ==> k.appointmentId == appointmentId
  {
    forall k | k in NewLinks(appointmentId, services, firstId)
      ensures k.appointmentId == appointmentId
    {
      var i :| 0 <= i < |services| && NewLinks(appointmentId, services, firstId)[i] == k;
    }
  }

  /** After a save that replaced the appointment's links, the appointment's
      links are exactly the new ones and every other appointment's links are
      those it had. */
  lemma ReplaceLinks(links: seq<AppointmentLink>, appointmentId: nat, services: seq<nat>, firstId: nat)
    ensures LinksOf(LinksNotOf(links, appointmentId) + NewLinks(appointmentId, services, firstId), appointmentId) ==
              NewLinks(appointmentId, services, firstId)
    ensures forall other :: other != appointmentId ==>
      LinksOf(LinksNotOf(links, appointmentId) + NewLinks(appointmentId, services, firstId), other) ==
        LinksOf(links, other)
  {
    var kept := LinksNotOf(links, appointmentId);
    var added := NewLinks(appointmentId, services, firstId);
    NewLinksOwner(appointmentId, services, firstId);
    FilterAppend(kept, added, OfAppointment(appointmentId));
    FilterNone(kept, OfAppointment(appointmentId));
    FilterKeepsAll(added, OfAppointment(appointmentId));
    forall other | other != appointmentId
      ensures LinksOf(kept + added, other) == LinksOf(links, other)
    {
      FilterAppend(kept, added, OfAppointment(other));
      FilterNone(added, OfAppointment(other));
      OthersKept(links, appointmentId, other);
    }
  }

  /** Dropping one appointment's links does not change another's. */
  lemma {:induction false} OthersKept(links: seq<AppointmentLink>, appointmentId: nat, other: nat)
    requires other != appointmentId
    ensures LinksOf(LinksNotOf(links, appointmentId), other) == LinksOf(links, other)
    decreases |links|
  {
    if links != [] {
      OthersKept(links[1..], appointmentId, other);
    }
  }

  /** Adding links for an appointment leaves every other appointment's links. */
  lemma AddLinksOthers(links: seq<AppointmentLink>, appointmentId: nat, services: seq<nat>, firstId: nat, other: nat)
    requires other != appointmentId
    ensures LinksOf(links + NewLinks(appointmentId, services, firstId), other) == LinksOf(links, other)
    ensures LinksOf(links + NewLinks(appointmentId, services, firstId), appointmentId) ==
              LinksOf(links, appointmentId) + NewLinks(appointmentId, services, firstId)
  {
    var added := NewLinks(appointmentId, services, firstId);
    NewLinksOwner(appointmentId, services, firstId);
    FilterAppend(links, added, OfAppointment(other));
    FilterNone(added, OfAppointment(other));
    FilterAppend(links, added, OfAppointment(appointmentId));
    FilterKeepsAll(added, OfAppointment(appointmentId));
    assert LinksOf(links, other) + [] == LinksOf(links, other);
  }

  /** What `handleSubmit` reports. */
  datatype SubmitResult = Incomplete | Saved(appointmentId: nat)

  class AppointmentForm {
    const db: Db
    const appointment: Option<Appointment>   // the appointment being edited, if any
    var customerId: nat                      // 0 while no customer is chosen
    var date: string
    var startTime: string
    var endTime: string
    var status: AppointmentStatus
    var notes: string
    var selectedServices: seq<nat>

    /** The form as opened: an existing appointment's fields and services,
        or a new appointment at the calendar slot that was clicked, with the
        end time one hour later; otherwise empty fields. */
    constructor (db: Db, appointment: Option<Appointment>, initialDate: string, initialTime: string)
      ensures this.db == db && this.appointment == appointment
      ensures appointment.Some? ==>
        var a := appointment.value;
        && customerId == a.customerId && date == a.date && startTime == a.startTime
        && endTime == a.endTime && status == a.status && notes == OrEmpty(a.notes)
        && selectedServices == (if a.id != 0 then ServiceIds(LinksOf(db.links, a.id)) else [])
      ensures appointment.None? ==> customerId == 0 && status == Scheduled && notes == "" && selectedServices == []
      ensures appointment.None? && initialDate != "" && initialTime != "" ==>
        date == initialDate && startTime == initialTime && endTime == EndTimeDefault(initialTime)
      ensures appointment.None? && (initialDate == "" || initialTime == "") ==>
        date == "" && startTime == "" && endTime == ""
    {
      this.db := db;
      this.appointment := appointment;
      customerId, date, startTime, endTime := 0, "", "", "";
      status, notes, selectedServices := Scheduled, "", [];
      if appointment.Some? {
        var a := appointment.value;
        customerId, date, startTime, endTime := a.customerId, a.date, a.startTime, a.endTime;
        status, notes := a.status, OrEmpty(a.notes);
        if a.id != 0 {
          selectedServices := ServiceIds(LinksOf(db.links, a.id));
        }
      } else if initialDate != "" && initialTime != "" {
        date, startTime := initialDate, initialTime;
        endTime := EndTimeDefault(initialTime);
      }
    }

    /** `toggleService`. */
    method ToggleService(serviceId: nat)
      modifies this
      ensures selectedServices == Toggle(old(selectedServices), serviceId)
      ensures customerId == old(customerId) && date == old(date) && startTime == old(startTime)
      ensures endTime == old(endTime) && status == old(status) && notes == old(notes)
    {
      selectedServices := Toggle(selectedServices, serviceId);
    }

    /** The appointment record a save writes: the form's fields over the
        edited record when it has an id, otherwise a new record created and
        updated now. */
    function Record(now: Timestamp): (r: Appointment)
      reads this
      ensures r.customerId == customerId && r.date == date && r.startTime == startTime
      ensures r.endTime == endTime && r.status == status && r.notes == NonEmpty(notes) && r.updatedAt == now
      ensures appointment.Some? && appointment.value.id != 0 ==>
        r.id == appointment.value.id && r.createdAt == appointment.value.createdAt
      ensures appointment.None? || appointment.value.id == 0 ==> r.createdAt == now
    {
      var fields := Appointment(0, customerId, date, startTime, endTime, status, NonEmpty(notes), now, now);
      if appointment.Some? && appointment.value.id != 0 then
        fields.(id := appointment.value.id, createdAt := appointment.value.createdAt)
      else fields
    }

    /** `handleSubmit`: refuses a form without a customer or without a
        service. Editing an appointment that has an id rewrites its record,
        deletes all its links and creates one link per selected service;
        otherwise it creates the appointment, then its links. */
    method HandleSubmit(now: Timestamp) returns (r: SubmitResult)
      requires db.Valid()
      modifies db
      ensures db.Valid()
      ensures r == Incomplete <==> customerId == 0 || |selectedServices| == 0
      ensures r == Incomplete ==> unchanged(db)
      ensures r.Saved? && appointment.Some? && appointment.value.id != 0 ==>
        && r.appointmentId == appointment.value.id
        && db.appointments == old(db.appointments)[r.appointmentId := Record(now)]
        && db.links == LinksNotOf(old(db.links), r.appointmentId)
                         + NewLinks(r.appointmentId, selectedServices, old(db.nextLinkId))
        && db.nextAppointmentId ==
             if r.appointmentId < old(db.nextAppointmentId) then old(db.nextAppointmentId) else r.appointmentId + 1
      ensures r.Saved? && (appointment.None? || appointment.value.id == 0) ==>
        && r.appointmentId == old(db.nextAppointmentId)
        && db.nextAppointmentId == r.appointmentId + 1
        && db.appointments == old(db.appointments)[r.appointmentId := Record(now).(id := r.appointmentId)]
        && db.links == old(db.links) + NewLinks(r.appointmentId, selectedServices, old(db.nextLinkId))
      ensures r.Saved? ==> db.nextLinkId == old(db.nextLinkId) + |selectedServices|
      ensures db.LedgerOf() == old(db.LedgerOf()) && db.products == old(db.products)
      ensures db.receipts == old(db.receipts) && db.receiptItems == old(db.receiptItems)
      ensures db.nextProductId == old(db.nextProductId) && db.nextReceiptId == old(db.nextReceiptId)
      ensures db.nextReceiptItemId == old(db.nextReceiptItemId)
    {
      if customerId == 0 || |selectedServices| == 0 {
        return Incomplete;
      }
      var id;
      if appointment.Some? && appointment.value.id != 0 {
        id := appointment.value.id;
        db.PutAppointment(Record(now));
        db.DeleteLinksOf(id);
      } else {
        id := db.CreateAppointment(Record(now));
      }
      AddLinks(id);
      r := Saved(id);
    }

    /** The save loop: one `AppointmentServiceService.create` per selected
        service, in order, each with quantity 1. */
    method AddLinks(appointmentId: nat)
      requires db.Valid()
      modifies db
      ensures db.Valid()
      ensures db.links == old(db.links) + NewLinks(appointmentId, selectedServices, old(db.nextLinkId))
      ensures db.nextLinkId == old(db.nextLinkId) + |selectedServices|
      ensures db.appointments == old(db.appointments) && db.nextAppointmentId == old(db.nextAppointmentId)
      ensures db.LedgerOf() == old(db.LedgerOf()) && db.products == old(db.products)
      ensures db.receipts == old(db.receipts) && db.receiptItems == old(db.receiptItems)
      ensures db.nextProductId == old(db.nextProductId) && db.nextReceiptId == old(db.nextReceiptId)
      ensures db.nextReceiptItemId == old(db.nextReceiptItemId)
    {
      var i := 0;
      while i < |selectedServices|
        invariant 0 <= i <= |selectedServices|
        invariant db.Valid()
        invariant db.links == old(db.links) + NewLinks(appointmentId, selectedServices[..i], old(db.nextLinkId))
        invariant db.nextLinkId == old(db.nextLinkId) + i
        invariant db.appointments == old(db.appointments) && db.nextAppointmentId == old(db.nextAppointmentId)
        invariant db.LedgerOf() == old(db.LedgerOf()) && db.products == old(db.products)
        invariant db.receipts == old(db.receipts) && db.receiptItems == old(db.receiptItems)
        invariant db.nextProductId == old(db.nextProductId) && db.nextReceiptId == old(db.nextReceiptId)
        invariant db.nextReceiptItemId == old(db.nextReceiptItemId)
      {
        var _ := db.CreateLink(appointmentId, selectedServices[i], 1);
        assert selectedServices[..i + 1][..i] == selectedServices[..i];
        i := i + 1;
      }
      assert selectedServices[..i] == selectedServices;
    }

    /** `handleDelete`: for a stored appointment, once confirmed, deletes
        its links and then the appointment itself. */
    method HandleDelete(confirmed: bool)
      requires db.Valid()
      modifies db
      ensures db.Valid()
      ensures appointment.None? || appointment.value.id == 0 || !confirmed ==> unchanged(db)
      ensures appointment.Some? && appointment.value.id != 0 && confirmed ==>
        && db.links == LinksNotOf(old(db.links), appointment.value.id)
        && db.appointments == old(db.appointments) - {appointment.value.id}
      ensures db.LedgerOf() == old(db.LedgerOf()) && db.products == old(db.products)
      ensures db.receipts == old(db.receipts) && db.receiptItems == old(db.receiptItems)
      ensures db.nextAppointmentId == old(db.nextAppointmentId) && db.nextLinkId == old(db.nextLinkId)
      ensures db.nextProductId == old(db.nextProductId) && db.nextReceiptId == old(db.nextReceiptId)
      ensures db.nextReceiptItemId == old(db.nextReceiptItemId)
    {
      if appointment.None? || appointment.value.id == 0 || !confirmed {
        return;
      }
      var id := appointment.value.id;
      db.DeleteLinksOf(id);
      db.DeleteAppointment(id);
    }
  }

  /** Saving an edited appointment and opening it again shows exactly the
      services that were selected, in the order they were selected. */
  lemma EditRoundTrip(links: seq<AppointmentLink>, appointmentId: nat, services: seq<nat>, firstId: nat)
    ensures ServiceIds(LinksOf(LinksNotOf(links, appointmentId) + NewLinks(appointmentId, services, firstId),
                               appointmentId)) == services
  {
    ReplaceLinks(links, appointmentId, services, firstId);
    NewLinksServices(appointmentId, services, firstId);
  }

  /** Deleting an appointment leaves it without links and every other
      appointment with the links it had. */
  lemma DeleteClearsLinks(links: seq<AppointmentLink>, appointmentId: nat)
    ensures LinksOf(LinksNotOf(links, appointmentId), appointmentId) == []
    ensures forall other :: other != appointmentId ==>
      LinksOf(LinksNotOf(links, appointmentId), other) == LinksOf(links, other)
  {
    FilterNone(LinksNotOf(links, appointmentId), OfAppointment(appointmentId));
    forall other | other != appointmentId
      ensures LinksOf(LinksNotOf(links, appointmentId), other) == LinksOf(links, other)
    {
      OthersKept(links, appointmentId, other);
    }
  }
}
