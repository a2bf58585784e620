/** The booking screen's state and its handlers: the fixed grid of half-hour
    slots, the date / time / notes selection, the availability load and the
    submit transitions. The network calls the screen makes are parameters:
    the outcome of createBooking and the result of getFullDates. */
module BookingScreen {
  import opened Common
  import opened Text
  import opened BookingCodec

  // ---------------------------------------------------------------------------
  // generateTimeSlots

  /** A slot label: "HH:MM" with a two-digit hour and minutes "00" or "30". */
  predicate IsSlotLabel(s: string) {
    |s| == 5 && IsDigit(s[0]) && IsDigit(s[1]) && s[2] == ':' && (s[3..] == "00" || s[3..] == "30")
  }

  /** Minutes after midnight denoted by a slot label, read back digit by digit. */
  function LabelMinutes(s: string): int
    requires IsSlotLabel(s)
  {
    60 * (10 * DigitValue(s[0]) + DigitValue(s[1])) + 10 * DigitValue(s[3]) + DigitValue(s[4])
  }

  const FirstHour := 9
  const EndHour := 20

  /** `${hour.toString().padStart(2, '0')}:${min}` for an hour below 100
      is a slot label whose value is that hour and those minutes. */
  lemma {:induction false} LabelOf(hour: int, min: string)
    requires 0 <= hour < 100 && (min == "00" || min == "30")
    ensures IsSlotLabel(PadStart2(IntToString(hour)) + ":" + min)
    ensures LabelMinutes(PadStart2(IntToString(hour)) + ":" + min) == 60 * hour + (if min == "00" then 0 else 30)
  {
    TwoDigits(hour);
    DigitCharValue(hour / 10);
    DigitCharValue(hour % 10);
    var s := PadStart2(IntToString(hour)) + ":" + min;
    assert s[3..] == min;
  }

  /** generateTimeSlots: for each hour from 9 to 19, the labels "HH:00" and
      "HH:30". Slot k denotes 9:00 plus k half hours, so the 22 slots run from
      "09:00" to "19:30", strictly ascending and 30 minutes apart. */
  method GenerateTimeSlots() returns (slots: seq<string>)
    ensures |slots| == 2 * (EndHour - FirstHour) == 22
    ensures forall k :: 0 <= k < |slots| ==> IsSlotLabel(slots[k]) && LabelMinutes(slots[k]) == 540 + 30 * k
    ensures forall k :: 0 < k < |slots| ==> LabelMinutes(slots[k]) == LabelMinutes(slots[k - 1]) + 30
    ensures slots[0] == "09:00" && slots[21] == "19:30"
  {
    slots := [];
    var hour := FirstHour;
    while hour < EndHour
      invariant FirstHour <= hour <= EndHour
      invariant |slots| == 2 * (hour - FirstHour)
      invariant forall k :: 0 <= k < |slots| ==> IsSlotLabel(slots[k]) && LabelMinutes(slots[k]) == 540 + 30 * k
    {
      var mins := ["00", "30"];
      var j := 0;
      while j < |mins|
        invariant 0 <= j <= |mins|
        invariant |slots| == 2 * (hour - FirstHour) + j
        invariant forall k :: 0 <= k < |slots| ==> IsSlotLabel(slots[k]) && LabelMinutes(slots[k]) == 540 + 30 * k
      {
        LabelOf(hour, mins[j]);
        slots := slots + [PadStart2(IntToString(hour)) + ":" + mins[j]];
        j := j + 1;
      }
      hour := hour + 1;
    }
    SlotLabelsDetermined(slots[0], "09:00");
    SlotLabelsDetermined(slots[21], "19:30");
  }

  /** A slot label is determined by the minutes it denotes. */
  lemma SlotLabelsDetermined(a: string, b: string)
    requires IsSlotLabel(a) && IsSlotLabel(b) && LabelMinutes(a) == LabelMinutes(b)
    ensures a == b
  {
    assert a[3..] == [a[3], a[4]] && b[3..] == [b[3], b[4]];
    assert a == [a[0], a[1], a[2], a[3], a[4]];
    assert b == [b[0], b[1], b[2], b[3], b[4]];
  }

  // ---------------------------------------------------------------------------
  // The submit outcome

  /** What the awaited createBooking call does: answer (success, or a
      rejection turned into a thrown Error by createBooking itself), or
      throw before any answer arrives (a network failure) with some message. */
  datatype SubmitOutcome = Answered(response: PostResponse) | Thrown(message: string)

  const DefaultSubmitError := "An error occurred while creating your booking. Please try again."

  /** The error the catch block shows, or None when the booking was created. */
  function SubmitError(outcome: SubmitOutcome): (e: Option<string>)
    ensures e.None? <==> outcome == Answered(Created)
    ensures e.Some? ==> e.value != ""
    ensures outcome.Thrown? && outcome.message != "" ==> e == Some(outcome.message)
    ensures outcome.Thrown? && outcome.message == "" ==> e == Some(DefaultSubmitError)
    ensures outcome.Answered? && outcome.response.Rejected? && outcome.response.message != "" ==>
      e == Some(outcome.response.message)
  {
    match outcome
    case Answered(resp) => CreateBookingError(resp)
    case Thrown(message) => Some(if message != "" then message else DefaultSubmitError)
  }

  // ---------------------------------------------------------------------------
  // The route's service id

  /** The text after an optional leading sign. */
  function Unsigned(t: string): (u: string)
    ensures u == t || (t != [] && (t[0] == '-' || t[0] == '+') && u == t[1..])
  {
    if t != [] && (t[0] == '-' || t[0] == '+') then t[1..] else t
  }

  /** parseInt(s) on decimal text: leading white space is skipped, a sign is
      read, then the longest run of digits. None stands for NaN, the result
      when no digit follows. */
  function ParseInt(s: string): (r: Option<int>)
    ensures r.None? <==> LeadingDigits(Unsigned(TrimStart(s))) == []
    ensures (s != [] && forall i :: 0 <= i < |s| ==> IsDigit(s[i])) ==> r == Some(DigitsValue(s))
  {
    var t := TrimStart(s);
    var digits := LeadingDigits(Unsigned(t));
    if digits == [] then None
    else if t[0] == '-' then Some(-(DigitsValue(digits) as int))
    else Some(DigitsValue(digits))
  }

  /** The decimal text of a number parses back to that number. */
  lemma ParseIntOfNatText(n: nat)
    ensures ParseInt(NatToString(n)) == Some(n)
  {
    DigitsValueOfNatText(n);
  }

  /** `!serviceId`: the route gave no id, or an empty one. */
  predicate NoRouteId(route: Option<string>) {
    route.None? || route.value == ""
  }

  // ---------------------------------------------------------------------------
  // The screen

  class Screen {
    /** The route parameter `serviceId`, as text; None when absent. */
    const serviceId: Option<string>
    /** bookingData: the three fields the form edits, plus any other field
        name an input event may carry. */
    var date: string
    var time: string
    var notes: string
    var extra: map<string, string>
    var submitted: bool
    var loading: bool
    var unavailableDates: seq<string>
    var error: string

    constructor(serviceId: Option<string>)
      ensures this.serviceId == serviceId
      ensures date == "" && time == "" && notes == "" && extra == map[]
      ensures !submitted && !loading && unavailableDates == [] && error == ""
    {
      this.serviceId := serviceId;
      date, time, notes, extra := "", "", "", map[];
      submitted, loading, unavailableDates, error := false, false, [], "";
    }

    /** The availability effect: the full dates of the service, once fetched;
        nothing happens without a service id or when the fetch fails. */
    method LoadAvailability(fetched: Option<seq<string>>)
      modifies this
      ensures unavailableDates == if !NoRouteId(serviceId) && fetched.Some? then fetched.value else old(unavailableDates)
      ensures date == old(date) && time == old(time) && notes == old(notes) && extra == old(extra)
      ensures submitted == old(submitted) && loading == old(loading) && error == old(error)
    {
      if NoRouteId(serviceId) {
        return;
      }
      if fetched.Some? {
        unavailableDates := fetched.value;
      }
    }

    /** handleDateSelect: only the date changes; the chosen time is kept. */
    method HandleDateSelect(d: string)
      modifies this`date
      ensures date == d
    {
      date := d;
    }

    /** handleTimeSelect: only the time changes, whether or not it is reserved. */
    method HandleTimeSelect(t: string)
      modifies this`time
      ensures time == t
    {
      time := t;
    }

    /** handleInputChange: only the field called `name` changes. */
    method HandleInputChange(name: string, value: string)
      modifies this`date, this`time, this`notes, this`extra
      ensures date == if name == "date" then value else old(date)
      ensures time == if name == "time" then value else old(time)
      ensures notes == if name == "notes" then value else old(notes)
      ensures extra == if name in {"date", "time", "notes"} then old(extra) else old(extra)[name := value]
    {
      if name == "date" {
        date := value;
      } else if name == "time" {
        time := value;
      } else if name == "notes" {
        notes := value;
      } else {
        extra := extra[name := value];
      }
    }

    /** The synchronous start of handleSubmit: the error is cleared and the
        screen shows that it is loading. */
    method BeginSubmit()
      modifies this`error, this`loading
      ensures error == "" && loading
    {
      error := "";
      loading := true;
    }

    /** The end of handleSubmit once createBooking has settled: success sets
        `submitted`, a failure sets the error, and `loading` is cleared
        whatever happened. The booking data is never touched. */
    method SettleSubmit(outcome: SubmitOutcome)
      requires !NoRouteId(serviceId)
      modifies this`submitted, this`error, this`loading
      ensures !loading
      ensures SubmitError(outcome).None? ==> submitted && error == old(error)
      ensures SubmitError(outcome).Some? ==> submitted == old(submitted) && error == SubmitError(outcome).value
    {
      var e := SubmitError(outcome);
      if e.None? {
        submitted := true;
      } else {
        error := e.value;
      }
      loading := false;
    }

    /** handleSubmit as a whole. It returns the request handed to
        createBooking, None when the route gave no service id (the function
        returns early, and the finally block still clears `loading`). A
        route id that is not a number is still sent, as NaN. */
    method HandleSubmit(outcome: SubmitOutcome) returns (sent: Option<BookingRequest>)
      modifies this`submitted, this`error, this`loading
      ensures !loading
      ensures sent.None? <==> NoRouteId(serviceId)
      ensures sent.Some? ==> sent.value == BookingRequest(ParseInt(serviceId.value), date, time, Some(notes))
      ensures NoRouteId(serviceId) ==> error == "" && submitted == old(submitted)
      ensures !NoRouteId(serviceId) && SubmitError(outcome).None? ==> submitted && error == ""
      ensures !NoRouteId(serviceId) && SubmitError(outcome).Some? ==>
        submitted == old(submitted) && error == SubmitError(outcome).value
    {
      BeginSubmit();
      if NoRouteId(serviceId) {
        loading := false;
        return None;
      }
      sent := Some(BookingRequest(ParseInt(serviceId.value), date, time, Some(notes)));
      SettleSubmit(outcome);
    }
  }
}
