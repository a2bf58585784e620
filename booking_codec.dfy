/** The two wire shapes of a booking's `bookingTime` and their normalisation
    into a (date, time) pair, plus the booking payload the browser sends. */
module BookingCodec {
  import opened Common
  import opened Text

  /** What `bookingTime` can hold once the JSON is decoded: nothing, an
      ISO-like string, an array of numbers [y, m, d, h, min, ...], or any
      other JSON value. */
  datatype RawTime = Missing | Str(text: string) | Arr(parts: seq<int>) | Other

  /** The normalised moment: "YYYY-MM-DD" and "HH:mm". */
  datatype Moment = Moment(dateStr: string, timeStr: string)

  /** Two places, zero-padded on the left (String(n).padStart(2, '0')). */
  function Pad2(n: int): string {
    PadStart2(IntToString(n))
  }

  /** parseBookingDateTime: None where the source returns null. */
  function Parse(raw: RawTime): (r: Option<Moment>)
    ensures raw.Missing? || raw.Other? ==> r == None
    ensures raw.Arr? ==> (r.Some? <==> |raw.parts| >= 5)
    ensures raw.Str? ==> r == ParseText(raw.text)
  {
    match raw
    case Missing => None
    case Other => None
    case Str(text) => ParseText(text)
    case Arr(parts) =>
      if |parts| >= 5 then
        var dateStr := IntToString(parts[0]) + "-" + Pad2(parts[1]) + "-" + Pad2(parts[2]);
        var timeStr := Pad2(parts[3]) + ":" + Pad2(parts[4]);
        Some(Moment(dateStr, timeStr))
      else None
  }

  /** The string shape: the trimmed text, split by SplitAtT. */
  function ParseText(text: string): (r: Option<Moment>)
    ensures r.Some? ==>
      var s := Trim(text);
      var k := |r.value.dateStr|;
      && r.value.dateStr != [] && 'T' !in r.value.dateStr
      && k + 6 <= |s| && s[..k] == r.value.dateStr && s[k] == 'T'
      && r.value.timeStr == s[k + 1..k + 6]
    ensures r.Some? <==> var s := Trim(text); 'T' in s && 0 < IndexOf(s, 'T') <= |s| - 6
  {
    SplitAtT(Trim(text))
  }

  /** The text up to its first 'T' is the date, and the five characters
      after it are the time; None when there is no 'T', nothing before it,
      or fewer than five characters after it. */
  function SplitAtT(s: string): (r: Option<Moment>)
    ensures r.Some? ==>
      var k := |r.value.dateStr|;
      && r.value.dateStr != [] && 'T' !in r.value.dateStr
      && k + 6 <= |s| && s[..k] == r.value.dateStr && s[k] == 'T'
      && r.value.timeStr == s[k + 1..k + 6]
    ensures r.Some? <==> 'T' in s && 0 < IndexOf(s, 'T') <= |s| - 6
  {
    var t := IndexOf(s, 'T');
    if t == -1 then None
    else
      var dateStr := s[..t];
      var timePart := s[t + 1..];
      var timeStr := if |timePart| >= 5 then timePart[..5] else "";
      assert |timePart| >= 5 ==> timeStr == s[t + 1..t + 6];
      if dateStr == "" || timeStr == "" then None else Some(Moment(dateStr, timeStr))
  }

  /** The `bookingTime` text createBooking sends: date + "T" + time + ":00". */
  function BookingTimeText(date: string, time: string): (r: string)
    ensures |r| == |date| + |time| + 4
  {
    date + "T" + time + ":00"
  }

  /** The text createBooking sends parses back to the date and time it was
      built from, whenever the date is non-empty, starts with no white space
      and holds no 'T', and the time has exactly five characters. */
  lemma {:induction false} ParseBookingTimeText(date: string, time: string)
    requires date != [] && !IsSpace(date[0]) && 'T' !in date
    requires |time| == 5
    ensures Parse(Str(BookingTimeText(date, time))) == Some(Moment(date, time))
  {
    var s := BookingTimeText(date, time);
    assert s[|s| - 1] == '0';
    TrimNoop(s);
    var k := IndexOf(s, 'T');
    assert s[|date|] == 'T';
    assert forall j :: 0 <= j < |date| ==> s[j] == date[j];
    assert forall j :: 0 <= j < k ==> s[..k][j] == s[j];
    assert k == |date|;
    assert s[..k] == date;
    assert s[k + 1..][..5] == time;
  }

  /** Two decimal digits of 0 <= n < 100. */
  function Digits2(n: nat): (r: string)
    requires n < 100
    ensures |r| == 2 && IsDigit(r[0]) && IsDigit(r[1])
  {
    [DigitChar(n / 10), DigitChar(n % 10)]
  }

  /** "y-MM-DD" for a non-negative year and two-digit month and day. */
  function DateText(y: nat, m: nat, d: nat): (r: string)
    requires m < 100 && d < 100
    ensures r != [] && IsDigit(r[0])
    ensures forall i :: 0 <= i < |r| ==> IsDigit(r[i]) || r[i] == '-'
  {
    NatToString(y) + "-" + Digits2(m) + "-" + Digits2(d)
  }

  /** "HH:mm" for a two-digit hour and minute. */
  function TimeText(h: nat, min: nat): (r: string)
    requires h < 100 && min < 100
    ensures |r| == 5
  {
    Digits2(h) + ":" + Digits2(min)
  }

  /** An array [y, m, d, h, min, ...] with in-range fields is normalised with
      every field zero-padded to two places; later elements are ignored. */
  lemma ParseArray(y: nat, m: nat, d: nat, h: nat, min: nat, rest: seq<int>)
    requires m < 100 && d < 100 && h < 100 && min < 100
    ensures Parse(Arr([y, m, d, h, min] + rest)) == Some(Moment(DateText(y, m, d), TimeText(h, min)))
  {
    TwoDigits(m);
    TwoDigits(d);
    TwoDigits(h);
    TwoDigits(min);
  }

  /** Both wire shapes of the same moment normalise to the same pair: the
      array the server may send and the string the browser itself sends. */
  lemma {:induction false} ArrayMatchesString(y: nat, m: nat, d: nat, h: nat, min: nat, rest: seq<int>)
    requires m < 100 && d < 100 && h < 100 && min < 100
    ensures Parse(Arr([y, m, d, h, min] + rest))
         == Parse(Str(BookingTimeText(DateText(y, m, d), TimeText(h, min))))
  {
    var date := DateText(y, m, d);
    ParseArray(y, m, d, h, min, rest);
    assert 'T' !in date by {
      forall i | 0 <= i < |date| ensures date[i] != 'T' {
        assert IsDigit(date[i]) || date[i] == '-';
      }
    }
    ParseBookingTimeText(date, TimeText(h, min));
  }

  /** The request the booking screen hands to createBooking. The service id
      is None when it is NaN (a route id that is not a number). */
  datatype BookingRequest = BookingRequest(serviceId: Option<int>, date: string, time: string, notes: Option<string>)

  /** The JSON body createBooking posts. JSON.stringify writes a NaN service
      id as null, here None. */
  datatype BookingPayload = BookingPayload(
    userId: Option<int>, serviceId: Option<int>, bookingTime: string, status: BookingStatus, notes: Option<string>)

  /** The payload createBooking builds: a PENDING booking whose time text
      parses back to exactly the requested date and time. */
  function CreateBookingPayload(userId: Option<int>, req: BookingRequest): (p: BookingPayload)
    ensures p.status == PENDING && p.serviceId == req.serviceId && p.userId == userId && p.notes == req.notes
    ensures p.bookingTime == req.date + "T" + req.time + ":00"
    ensures req.date != [] && !IsSpace(req.date[0]) && 'T' !in req.date && |req.time| == 5 ==>
      Parse(Str(p.bookingTime)) == Some(Moment(req.date, req.time))
  {
    var text := BookingTimeText(req.date, req.time);
    assert req.date != [] && !IsSpace(req.date[0]) && 'T' !in req.date && |req.time| == 5 ==>
      Parse(Str(text)) == Some(Moment(req.date, req.time)) by {
      if req.date != [] && !IsSpace(req.date[0]) && 'T' !in req.date && |req.time| == 5 {
        ParseBookingTimeText(req.date, req.time);
      }
    }
    BookingPayload(userId, req.serviceId, BookingTimeText(req.date, req.time), PENDING, req.notes)
  }

  /** The HTTP answer to a POST: success, or a failure whose JSON body may
      carry a `message` ("" when it is absent or the body is not JSON). */
  datatype PostResponse = Created | Rejected(message: string)

  const CreateFailedText := "Failed to create booking"

  /** createBooking's outcome: Some(error message) when the response is not
      ok. The message is the server's when it gave one, the fixed text
      otherwise, so it is never empty. */
  function CreateBookingError(resp: PostResponse): (e: Option<string>)
    ensures e.None? <==> resp.Created?
    ensures e.Some? ==> e.value != ""
    ensures resp.Rejected? && resp.message != "" ==> e == Some(resp.message)
    ensures resp.Rejected? && resp.message == "" ==> e == Some(CreateFailedText)
  {
    match resp
    case Created => None
    case Rejected(message) => Some(if message != "" then message else CreateFailedText)
  }
}
