/** The availability views the front end derives from a list of bookings
    (buildBookedTimesByDate, buildFullDates, buildBookedSlotUserByDate) and
    the store-wide merge of per-service full dates (getFullDatesByStore).

    Each builder is a loop that pushes into a local object or array, as in
    the source; each is proved equal to a reference definition, and the
    properties the views promise are proved about those definitions. */
module Availability {
  import opened Common
  import opened Text
  import opened Seqs
  import opened Records
  import opened BookingCodec

  /** The booking's user as the browser receives it; "" stands for a field
      that is missing or empty (both are falsy for `||`). */
  datatype Person = Person(fullName: string, username: string)

  /** A booking as the browser receives it: only the fields the views read. */
  datatype ClientBooking = ClientBooking(status: BookingStatus, bookingTime: RawTime, user: Option<Person>)

  /** b.user?.fullName || b.user?.username || 'Guest' */
  function DisplayName(b: ClientBooking): (n: string)
    ensures n != ""
    ensures b.user.Some? && b.user.value.fullName != "" ==> n == b.user.value.fullName
    ensures b.user.Some? && b.user.value.fullName == "" && b.user.value.username != "" ==> n == b.user.value.username
    ensures b.user.None? || (b.user.value.fullName == "" && b.user.value.username == "") ==> n == "Guest"
  {
    match b.user
    case None => "Guest"
    case Some(p) => if p.fullName != "" then p.fullName else if p.username != "" then p.username else "Guest"
  }

  /** The booking holds slot (date, time): it is not cancelled and its
      `bookingTime` parses to that pair. */
  predicate Occupies(b: ClientBooking, date: string, time: string) {
    b.status != CANCELLED && Parse(b.bookingTime) == Some(Moment(date, time))
  }

  /** Some booking of `bs` holds slot (date, time). */
  predicate Reserved(bs: seq<ClientBooking>, date: string, time: string) {
    exists i :: 0 <= i < |bs| && Occupies(bs[i], date, time)
  }

  /** Some booking of `bs` holds slot (date, time) under the display name `name`. */
  predicate BookedBy(bs: seq<ClientBooking>, date: string, time: string, name: string) {
    exists i :: 0 <= i < |bs| && Occupies(bs[i], date, time) && DisplayName(bs[i]) == name
  }

  /** What one surviving booking contributes to the views. */
  datatype Entry = Entry(date: string, time: string, name: string)

  /** The filter and the parse of the builders: None for a cancelled or an
      unparseable booking. */
  function EntryOf(b: ClientBooking): (e: Option<Entry>)
    ensures e.None? <==> b.status == CANCELLED || Parse(b.bookingTime).None?
    ensures e.Some? ==> Occupies(b, e.value.date, e.value.time) && e.value.name == DisplayName(b)
    ensures forall d, t :: Occupies(b, d, t) ==> e == Some(Entry(d, t, DisplayName(b)))
  {
    if b.status == CANCELLED then None
    else match Parse(b.bookingTime)
      case None => None
      case Some(m) => Some(Entry(m.dateStr, m.timeStr, DisplayName(b)))
  }

  /** The entries of the bookings that survive the filter and the parse, in order. */
  function Entries(bs: seq<ClientBooking>): seq<Entry> {
    if bs == [] then []
    else
      var last := EntryOf(bs[|bs| - 1]);
      Entries(bs[..|bs| - 1]) + (if last.Some? then [last.value] else [])
  }

  /** The (date, time) pair of every entry. */
  function DateTimes(es: seq<Entry>): seq<(string, string)> {
    if es == [] then [] else DateTimes(es[..|es| - 1]) + [(es[|es| - 1].date, es[|es| - 1].time)]
  }

  /** The (time, name) pair of every entry on `date`. */
  function TimeNames(es: seq<Entry>, date: string): seq<(string, string)> {
    if es == [] then []
    else
      var e := es[|es| - 1];
      TimeNames(es[..|es| - 1], date) + (if e.date == date then [(e.time, e.name)] else [])
  }

  // ---------------------------------------------------------------------------
  // Facts about the entries

  lemma EntriesStep(bs: seq<ClientBooking>, b: ClientBooking)
    ensures Entries(bs + [b]) == Entries(bs) + (if EntryOf(b).Some? then [EntryOf(b).value] else [])
  {
    assert (bs + [b])[..|bs|] == bs;
  }

  lemma {:induction false} EntriesMembership(bs: seq<ClientBooking>, e: Entry)
    ensures e in Entries(bs) <==> exists i :: 0 <= i < |bs| && EntryOf(bs[i]) == Some(e)
  {
    if bs != [] {
      var init, b := bs[..|bs| - 1], bs[|bs| - 1];
      assert bs == init + [b];
      EntriesStep(init, b);
      EntriesMembership(init, e);
      if e in Entries(bs) && e in Entries(init) {
        var i :| 0 <= i < |init| && EntryOf(init[i]) == Some(e);
        assert bs[i] == init[i];
      }
      if i :| 0 <= i < |bs| && EntryOf(bs[i]) == Some(e) {
        if i < |init| {
          assert init[i] == bs[i];
        }
      }
    }
  }

  lemma EntryPairsStep(es: seq<Entry>, e: Entry, date: string)
    ensures DateTimes(es + [e]) == DateTimes(es) + [(e.date, e.time)]
    ensures TimeNames(es + [e], date) == TimeNames(es, date) + (if e.date == date then [(e.time, e.name)] else [])
  {
    assert (es + [e])[..|es|] == es;
  }

  lemma {:induction false} DateTimesMembership(es: seq<Entry>, date: string, time: string)
    ensures (date, time) in DateTimes(es) <==> exists e :: e in es && e.date == date && e.time == time
  {
    if es != [] {
      var init := es[..|es| - 1];
      DateTimesMembership(init, date, time);
      assert es == init + [es[|es| - 1]];
    }
  }

  lemma {:induction false} TimeNamesMembership(es: seq<Entry>, date: string, time: string, name: string)
    ensures (time, name) in TimeNames(es, date) <==> Entry(date, time, name) in es
  {
    if es != [] {
      var init := es[..|es| - 1];
      TimeNamesMembership(init, date, time, name);
      assert es == init + [es[|es| - 1]];
    }
  }

  /** The times listed for a date are the keys of that date's names. */
  lemma {:induction false} KeysOfTimeNames(es: seq<Entry>, date: string)
    ensures Keys(TimeNames(es, date)) == ValuesAt(DateTimes(es), date)
  {
    if es != [] {
      var init := es[..|es| - 1];
      var e := es[|es| - 1];
      KeysOfTimeNames(init, date);
      PairsStep(DateTimes(init), (e.date, e.time), date);
      if e.date == date {
        PairsStep(TimeNames(init, date), (e.time, e.name), date);
      } else {
        assert TimeNames(es, date) == TimeNames(init, date);
      }
    }
  }

  /** An entry for slot (date, time) was derived exactly when some booking holds it. */
  lemma EntrySlot(bs: seq<ClientBooking>, date: string, time: string)
    ensures (exists e :: e in Entries(bs) && e.date == date && e.time == time) <==> Reserved(bs, date, time)
  {
    if Reserved(bs, date, time) {
      var i :| 0 <= i < |bs| && Occupies(bs[i], date, time);
      EntriesMembership(bs, EntryOf(bs[i]).value);
    }
    if exists e :: e in Entries(bs) && e.date == date && e.time == time {
      var e :| e in Entries(bs) && e.date == date && e.time == time;
      EntriesMembership(bs, e);
    }
  }

  /** An entry (date, time, name) was derived exactly when some booking holds
      that slot under that display name. */
  lemma EntryBookedBy(bs: seq<ClientBooking>, date: string, time: string, name: string)
    ensures Entry(date, time, name) in Entries(bs) <==> BookedBy(bs, date, time, name)
  {
    EntriesMembership(bs, Entry(date, time, name));
    if BookedBy(bs, date, time, name) {
      var i :| 0 <= i < |bs| && Occupies(bs[i], date, time) && DisplayName(bs[i]) == name;
      assert EntryOf(bs[i]) == Some(Entry(date, time, name));
    }
  }

  // ---------------------------------------------------------------------------
  // buildBookedTimesByDate

  /** The reference view: the dates in first-seen order, and under each date
      its distinct times in first-seen order. */
  function BookedTimes(bs: seq<ClientBooking>): Record<seq<string>> {
    Group(DateTimes(Entries(bs)))
  }

  /** buildBookedTimesByDate: date -> distinct reserved times. */
  method BuildBookedTimesByDate(bookings: seq<ClientBooking>) returns (r: Record<seq<string>>)
    ensures r == BookedTimes(bookings)
    ensures WellFormed(r)
    ensures forall d, t :: Lists(r, d, t) <==> Reserved(bookings, d, t)
    ensures forall d :: d in r.at ==> Distinct(r.at[d])
  {
    r := Record([], map[]);
    var i := 0;
    while i < |bookings|
      invariant 0 <= i <= |bookings|
      invariant r == BookedTimes(bookings[..i])
    {
      var b := bookings[i];
      assert bookings[..i + 1] == bookings[..i] + [b];
      EntriesStep(bookings[..i], b);
      if b.status != CANCELLED {
        var parsed := Parse(b.bookingTime);
        if parsed.Some? {
          var dateStr, timeStr := parsed.value.dateStr, parsed.value.timeStr;
          ghost var before := r;
          if dateStr !in r.at {
            r := Record(r.keys + [dateStr], r.at[dateStr := []]);
          }
          if timeStr !in r.at[dateStr] {
            r := Record(r.keys, r.at[dateStr := r.at[dateStr] + [timeStr]]);
          }
          assert r == Push(before, dateStr, timeStr);
          ghost var e := Entry(dateStr, timeStr, DisplayName(b));
          assert Occupies(b, dateStr, timeStr);
          assert Entries(bookings[..i + 1]) == Entries(bookings[..i]) + [e];
          EntryPairsStep(Entries(bookings[..i]), e, "");
          PushStep(DateTimes(Entries(bookings[..i])), (dateStr, timeStr));
        } else {
          assert Entries(bookings[..i + 1]) == Entries(bookings[..i]);
        }
      } else {
        assert Entries(bookings[..i + 1]) == Entries(bookings[..i]);
      }
      i := i + 1;
    }
    assert bookings[..i] == bookings;
    BookedTimesProperties(bookings);
  }

  /** The properties of the booked-times view: a well-formed record whose
      lists are duplicate-free and hold exactly the times reserved on each
      date; cancelled and unparseable bookings contribute nothing. */
  lemma {:induction false} BookedTimesProperties(bs: seq<ClientBooking>)
    ensures WellFormed(BookedTimes(bs))
    ensures forall d, t :: Lists(BookedTimes(bs), d, t) <==> Reserved(bs, d, t)
    ensures forall d :: d in BookedTimes(bs).at ==> Distinct(BookedTimes(bs).at[d]) && BookedTimes(bs).at[d] != []
  {
    var es := Entries(bs);
    GroupProperties(DateTimes(es));
    forall d, t ensures Lists(BookedTimes(bs), d, t) <==> Reserved(bs, d, t) {
      EntrySlot(bs, d, t);
      DateTimesMembership(es, d, t);
    }
  }

  // ---------------------------------------------------------------------------
  // buildFullDates

  /** The length of the list under `k`, or 0 when there is none (`|| []`). */
  function SlotCount(r: Record<seq<string>>, k: string): nat {
    if k in r.at then |r.at[k]| else 0
  }

  function FullRule(r: Record<seq<string>>, totalSlots: int): string -> bool {
    k => SlotCount(r, k) >= totalSlots
  }

  /** The reference definition: the keys, in key order, whose list has at
      least `totalSlots` entries. */
  function FullDates(r: Record<seq<string>>, totalSlots: int): seq<string> {
    Filter(r.keys, FullRule(r, totalSlots))
  }

  /** buildFullDates: the dates on which every slot is reserved. */
  method BuildFullDates(r: Record<seq<string>>, totalSlots: int) returns (full: seq<string>)
    ensures full == FullDates(r, totalSlots)
    ensures forall d :: d in full <==> d in r.keys && SlotCount(r, d) >= totalSlots
    ensures IsSubsequence(full, r.keys)
    ensures Distinct(r.keys) ==> Distinct(full)
  {
    full := [];
    var i := 0;
    while i < |r.keys|
      invariant 0 <= i <= |r.keys|
      invariant full == Filter(r.keys[..i], FullRule(r, totalSlots))
    {
      var dateStr := r.keys[i];
      var booked := if dateStr in r.at then r.at[dateStr] else [];
      FilterAppend(r.keys[..i], [dateStr], FullRule(r, totalSlots));
      assert r.keys[..i + 1] == r.keys[..i] + [dateStr];
      if |booked| >= totalSlots {
        full := full + [dateStr];
      }
      i := i + 1;
    }
    assert r.keys[..i] == r.keys;
    FullDatesProperties(r, totalSlots);
  }

  lemma FullDatesProperties(r: Record<seq<string>>, totalSlots: int)
    ensures forall d :: d in FullDates(r, totalSlots) <==> d in r.keys && SlotCount(r, d) >= totalSlots
    ensures IsSubsequence(FullDates(r, totalSlots), r.keys)
    ensures Distinct(r.keys) ==> Distinct(FullDates(r, totalSlots))
  {
    forall d ensures d in FullDates(r, totalSlots) <==> d in r.keys && SlotCount(r, d) >= totalSlots {
      FilterMembership(r.keys, FullRule(r, totalSlots), d);
    }
    FilterIsSubsequence(r.keys, FullRule(r, totalSlots));
    if Distinct(r.keys) {
      FilterDistinct(r.keys, FullRule(r, totalSlots));
    }
  }

  /** The times reserved on `date`, as a set. */
  ghost function ReservedTimes(bs: seq<ClientBooking>, date: string): set<string> {
    set e | e in Entries(bs) && e.date == date :: e.time
  }

  lemma ReservedTimesMembership(bs: seq<ClientBooking>, date: string, time: string)
    ensures time in ReservedTimes(bs, date) <==> Reserved(bs, date, time)
  {
    EntrySlot(bs, date, time);
  }

  /** Composed with the booked-times view, buildFullDates lists a date exactly
      when some booking holds a slot on it and the number of distinct times
      reserved on it reaches `totalSlots`; every such date is listed once. */
  lemma {:induction false} FullDatesOfBookings(bs: seq<ClientBooking>, totalSlots: int, date: string)
    ensures date in FullDates(BookedTimes(bs), totalSlots)
        <==> (exists t :: Reserved(bs, date, t)) && |ReservedTimes(bs, date)| >= totalSlots
    ensures Distinct(FullDates(BookedTimes(bs), totalSlots))
  {
    var r := BookedTimes(bs);
    BookedTimesProperties(bs);
    FullDatesProperties(r, totalSlots);
    if date in r.at {
      var ts := r.at[date];
      DistinctCard(ts);
      forall t ensures t in ts <==> t in ReservedTimes(bs, date) {
        ReservedTimesMembership(bs, date, t);
        assert Lists(r, date, t) <==> Reserved(bs, date, t);
      }
      assert (set x | x in ts) == ReservedTimes(bs, date);
      assert Lists(r, date, ts[0]);
    } else {
      forall t ensures !Reserved(bs, date, t) {
        assert !Lists(r, date, t);
      }
    }
  }

  // ---------------------------------------------------------------------------
  // buildBookedSlotUserByDate

  /** The reference view: date -> time -> distinct display names, dates and
      times in first-seen order. */
  function SlotUsersOf(es: seq<Entry>): Record<Record<seq<string>>> {
    var ds := Keys(DateTimes(es));
    Record(Dedup(ds), map d | d in ds :: Group(TimeNames(es, d)))
  }

  function SlotUsers(bs: seq<ClientBooking>): Record<Record<seq<string>>> {
    SlotUsersOf(Entries(bs))
  }

  /** The loop body of buildBookedSlotUserByDate for one surviving booking. */
  function AddSlotUser(r: Record<Record<seq<string>>>, e: Entry): Record<Record<seq<string>>> {
    var r1 := if e.date !in r.at then Record(r.keys + [e.date], r.at[e.date := Record([], map[])]) else r;
    Record(r1.keys, r1.at[e.date := Push(r1.at[e.date], e.time, e.name)])
  }

  /** A date no entry carries has no (time, name) pairs. */
  lemma {:induction false} NoTimeNamesOnUnseenDate(es: seq<Entry>, d: string)
    requires d !in Keys(DateTimes(es))
    ensures TimeNames(es, d) == []
  {
    if es != [] {
      var init := es[..|es| - 1];
      var e := es[|es| - 1];
      PairsStep(DateTimes(init), (e.date, e.time), d);
      NoTimeNamesOnUnseenDate(init, d);
    }
  }

  lemma {:induction false} SlotUsersAt(es: seq<Entry>, e: Entry, d: string)
    requires d in AddSlotUser(SlotUsersOf(es), e).at
    ensures AddSlotUser(SlotUsersOf(es), e).at[d] == Group(TimeNames(es + [e], d))
  {
    var u := SlotUsersOf(es);
    EntryPairsStep(es, e, d);
    if d != e.date {
      assert AddSlotUser(u, e).at[d] == u.at[d];
      assert TimeNames(es + [e], d) == TimeNames(es, d);
    } else {
      if d !in Keys(DateTimes(es)) {
        NoTimeNamesOnUnseenDate(es, d);
        GroupEmpty();
      }
      assert AddSlotUser(u, e).at[d] == Push(Group(TimeNames(es, d)), e.time, e.name);
      PushStep(TimeNames(es, d), (e.time, e.name));
    }
  }

  lemma SlotUsersKeys(es: seq<Entry>, e: Entry)
    ensures SlotUsersOf(es + [e]).keys == AddSlotUser(SlotUsersOf(es), e).keys
    ensures forall d :: d in SlotUsersOf(es + [e]).at <==> d in AddSlotUser(SlotUsersOf(es), e).at
  {
    EntryPairsStep(es, e, "");
    PairsStep(DateTimes(es), (e.date, e.time), "");
    DedupStep(Keys(DateTimes(es)), e.date);
    DedupMembership(Keys(DateTimes(es)), e.date);
  }

  lemma {:induction false} SlotUsersStep(es: seq<Entry>, e: Entry)
    ensures SlotUsersOf(es + [e]) == AddSlotUser(SlotUsersOf(es), e)
  {
    var a := SlotUsersOf(es + [e]);
    var b := AddSlotUser(SlotUsersOf(es), e);
    SlotUsersKeys(es, e);
    forall d | d in b.at ensures a.at[d] == b.at[d] {
      SlotUsersAt(es, e, d);
    }
    MapsAgree(a.at, b.at);
  }

  /** buildBookedSlotUserByDate: date -> time -> distinct display names. */
  method BuildBookedSlotUserByDate(bookings: seq<ClientBooking>) returns (r: Record<Record<seq<string>>>)
    ensures r == SlotUsers(bookings)
    ensures r.keys == BookedTimes(bookings).keys
    ensures forall d :: d in r.at <==> d in BookedTimes(bookings).at
    ensures forall d :: d in r.at ==> r.at[d].keys == BookedTimes(bookings).at[d]
    ensures forall d, t, n :: d in r.at && Lists(r.at[d], t, n) <==> BookedBy(bookings, d, t, n)
    ensures forall d, t :: d in r.at && t in r.at[d].at ==> Distinct(r.at[d].at[t])
  {
    r := Record([], map[]);
    var i := 0;
    while i < |bookings|
      invariant 0 <= i <= |bookings|
      invariant r == SlotUsers(bookings[..i])
    {
      var b := bookings[i];
      assert bookings[..i + 1] == bookings[..i] + [b];
      EntriesStep(bookings[..i], b);
      if b.status != CANCELLED {
        var parsed := Parse(b.bookingTime);
        if parsed.Some? {
          var dateStr, timeStr := parsed.value.dateStr, parsed.value.timeStr;
          var name := DisplayName(b);
          ghost var before := r;
          if dateStr !in r.at {
            r := Record(r.keys + [dateStr], r.at[dateStr := Record([], map[])]);
          }
          var slots := r.at[dateStr];
          if timeStr !in slots.at {
            slots := Record(slots.keys + [timeStr], slots.at[timeStr := []]);
          }
          if name !in slots.at[timeStr] {
            slots := Record(slots.keys, slots.at[timeStr := slots.at[timeStr] + [name]]);
          }
          r := Record(r.keys, r.at[dateStr := slots]);
          ghost var e := Entry(dateStr, timeStr, name);
          assert r == AddSlotUser(before, e);
          assert Occupies(b, dateStr, timeStr);
          assert Entries(bookings[..i + 1]) == Entries(bookings[..i]) + [e];
          SlotUsersStep(Entries(bookings[..i]), e);
        } else {
          assert Entries(bookings[..i + 1]) == Entries(bookings[..i]);
        }
      } else {
        assert Entries(bookings[..i + 1]) == Entries(bookings[..i]);
      }
      i := i + 1;
    }
    assert bookings[..i] == bookings;
    SlotUsersProperties(bookings);
  }

  /** The slot-user view agrees with the booked-times view on its keys: the
      same dates, and under each date the same times in the same order. */
  lemma {:induction false} SlotUsersKeysAgree(bs: seq<ClientBooking>)
    ensures SlotUsers(bs).keys == BookedTimes(bs).keys
    ensures forall d :: d in SlotUsers(bs).at <==> d in BookedTimes(bs).at
    ensures forall d :: d in SlotUsers(bs).at ==> SlotUsers(bs).at[d].keys == BookedTimes(bs).at[d]
  {
    var es := Entries(bs);
    forall d | d in SlotUsers(bs).at ensures SlotUsers(bs).at[d].keys == BookedTimes(bs).at[d] {
      KeysOfTimeNames(es, d);
    }
  }

  /** A name is listed for a slot exactly when a booking holds the slot under
      that display name. */
  lemma {:induction false} SlotUsersNames(bs: seq<ClientBooking>, d: string, t: string, n: string)
    ensures d in SlotUsers(bs).at && Lists(SlotUsers(bs).at[d], t, n) <==> BookedBy(bs, d, t, n)
  {
    var es := Entries(bs);
    EntryBookedBy(bs, d, t, n);
    TimeNamesMembership(es, d, t, n);
    GroupProperties(TimeNames(es, d));
    if d !in Keys(DateTimes(es)) {
      NoTimeNamesOnUnseenDate(es, d);
    }
  }

  /** The slot-user view: keys agreeing with the booked-times view, names
      exactly those of the bookings holding each slot, no name twice. */
  lemma {:induction false} SlotUsersProperties(bs: seq<ClientBooking>)
    ensures SlotUsers(bs).keys == BookedTimes(bs).keys
    ensures forall d :: d in SlotUsers(bs).at <==> d in BookedTimes(bs).at
    ensures forall d :: d in SlotUsers(bs).at ==> SlotUsers(bs).at[d].keys == BookedTimes(bs).at[d]
    ensures forall d, t, n :: d in SlotUsers(bs).at && Lists(SlotUsers(bs).at[d], t, n) <==> BookedBy(bs, d, t, n)
    ensures forall d, t :: d in SlotUsers(bs).at && t in SlotUsers(bs).at[d].at ==> Distinct(SlotUsers(bs).at[d].at[t])
  {
    SlotUsersKeysAgree(bs);
    forall d, t, n ensures d in SlotUsers(bs).at && Lists(SlotUsers(bs).at[d], t, n) <==> BookedBy(bs, d, t, n) {
      SlotUsersNames(bs, d, t, n);
    }
    forall d, t | d in SlotUsers(bs).at && t in SlotUsers(bs).at[d].at ensures Distinct(SlotUsers(bs).at[d].at[t]) {
      GroupProperties(TimeNames(Entries(bs), d));
    }
  }

  // ---------------------------------------------------------------------------
  // getFullDatesByStore

  /** Ascending insertion by the default string order, for a value not yet present. */
  function InsertAsc(x: string, s: seq<string>): seq<string> {
    if s == [] then [x]
    else if Less(s[0], x) then [s[0]] + InsertAsc(x, s[1..])
    else [x] + s
  }

  /** Array.prototype.sort with the default comparison, on distinct strings. */
  function SortAsc(s: seq<string>): seq<string> {
    if s == [] then [] else InsertAsc(s[0], SortAsc(s[1..]))
  }

  predicate StrictlyAscending(s: seq<string>) {
    forall i, j :: 0 <= i < j < |s| ==> Less(s[i], s[j])
  }

  lemma {:induction false} InsertAscCorrect(x: string, s: seq<string>)
    requires StrictlyAscending(s) && x !in s
    ensures StrictlyAscending(InsertAsc(x, s))
    ensures forall y :: y in InsertAsc(x, s) <==> y == x || y in s
  {
    if s != [] {
      InsertAscCorrect(x, s[1..]);
      assert s == [s[0]] + s[1..];
      var r := InsertAsc(x, s[1..]);
      if Less(s[0], x) {
        forall k | 0 <= k < |r| ensures Less(s[0], r[k]) {
          if r[k] != x {
            assert r[k] in s[1..];
            var m :| 0 <= m < |s[1..]| && s[1..][m] == r[k];
            assert s[m + 1] == r[k];
          }
        }
      } else {
        LessTotal(x, s[0]);
        forall k | 0 < k < |s| ensures Less(x, s[k]) {
          LessTransitive(x, s[0], s[k]);
        }
      }
    }
  }

  lemma {:induction false} SortAscCorrect(s: seq<string>)
    requires Distinct(s)
    ensures StrictlyAscending(SortAsc(s))
    ensures forall y :: y in SortAsc(s) <==> y in s
  {
    if s != [] {
      assert Distinct(s[1..]) by {
        forall i, j | 0 <= i < j < |s[1..]| ensures s[1..][i] != s[1..][j] {
          assert s[1..][i] == s[i + 1] && s[1..][j] == s[j + 1];
        }
      }
      SortAscCorrect(s[1..]);
      assert s[0] !in s[1..] by {
        forall k | 0 <= k < |s[1..]| ensures s[1..][k] != s[0] {
          assert s[1..][k] == s[k + 1];
        }
      }
      InsertAscCorrect(s[0], SortAsc(s[1..]));
      assert s == [s[0]] + s[1..];
    }
  }

  lemma StrictlyAscendingDistinct(s: seq<string>)
    requires StrictlyAscending(s)
    ensures Distinct(s)
  {
    forall i, j | 0 <= i < j < |s| ensures s[i] != s[j] {
      LessIrreflexive(s[i]);
    }
  }

  /** `x` is among the dates some service's successful request returned. */
  predicate Fetched(serviceIds: seq<int>, fetch: int -> Option<seq<string>>, x: string) {
    exists i :: 0 <= i < |serviceIds| && fetch(serviceIds[i]).Some? && x in fetch(serviceIds[i]).value
  }

  /** What one service's request contributes: its list, or nothing when it fails. */
  function ListOrEmpty(o: Option<seq<string>>): seq<string> {
    if o.Some? then o.value else []
  }

  /** lists.flat() over the per-service results, in service order. */
  function Flat(serviceIds: seq<int>, fetch: int -> Option<seq<string>>): seq<string> {
    if serviceIds == [] then []
    else ListOrEmpty(fetch(serviceIds[0])) + Flat(serviceIds[1..], fetch)
  }

  lemma {:induction false} FlatMembership(serviceIds: seq<int>, fetch: int -> Option<seq<string>>, x: string)
    ensures x in Flat(serviceIds, fetch) <==> Fetched(serviceIds, fetch, x)
  {
    if serviceIds != [] {
      FlatMembership(serviceIds[1..], fetch, x);
      if Fetched(serviceIds, fetch, x) {
        var i :| 0 <= i < |serviceIds| && fetch(serviceIds[i]).Some? && x in fetch(serviceIds[i]).value;
        if i > 0 {
          assert serviceIds[1..][i - 1] == serviceIds[i];
        }
      }
      if x in Flat(serviceIds[1..], fetch) {
        var i :| 0 <= i < |serviceIds[1..]| && fetch(serviceIds[1..][i]).Some? && x in fetch(serviceIds[1..][i]).value;
        assert serviceIds[1..][i] == serviceIds[i + 1];
      }
    }
  }

  /** The merge of getFullDatesByStore: `fetch` is getFullDates for one
      service, None where that request fails (the failure is caught and
      contributes no date). */
  function FullDatesByStore(serviceIds: seq<int>, fetch: int -> Option<seq<string>>): (r: seq<string>)
    ensures serviceIds == [] ==> r == []
    ensures StrictlyAscending(r) && Distinct(r)
    ensures forall x :: x in r <==> Fetched(serviceIds, fetch, x)
  {
    if serviceIds == [] then []
    else
      var all := Flat(serviceIds, fetch);
      var r := SortAsc(Dedup(all));
      assert StrictlyAscending(r) && Distinct(r) && forall x :: x in r <==> x in all by {
        DedupDistinct(all);
        SortAscCorrect(Dedup(all));
        StrictlyAscendingDistinct(r);
        forall x ensures x in r <==> x in all {
          DedupMembership(all, x);
        }
      }
      assert forall x :: x in r <==> Fetched(serviceIds, fetch, x) by {
        forall x ensures x in all <==> Fetched(serviceIds, fetch, x) {
          FlatMembership(serviceIds, fetch, x);
        }
      }
      r
  }
}
