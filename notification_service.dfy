/** In-app notifications: creating one for a receiver, the receiver's inbox
    (not dismissed, newest first), dismissal by the receiver only, and the
    messages sent when bookings are made or cancelled and when products are
    bought. The notification table is a sequence in insertion order, ids
    being given 1, 2, 3, ... as an identity column does; the users, bookings
    and services the service only reads are fixed maps. */
module NotificationService {
  import opened Common
  import opened Text
  import opened Seqs

  /** The user fields the messages use. */
  datatype User = User(fullName: Option<string>, username: Option<string>)

  /** A booking as loaded with its service and user: either may be missing. */
  datatype BookingLink = BookingLink(serviceId: Option<int>, userId: Option<int>)

  /** The business of a service, with its name and its owner's user id. */
  datatype BusinessLink = BusinessLink(name: Option<string>, ownerId: Option<int>)

  /** A service as loaded with its business. */
  datatype ServiceLink = ServiceLink(business: Option<BusinessLink>)

  datatype Notification = Notification(
    id: int,
    message: string,
    senderId: Option<int>,
    receiverId: int,
    dismissed: bool,
    createdAt: int)

  const ReceiverNotFound := "Receiver user not found"
  const DefaultStoreName := "your store"
  const DefaultCustomerName := "a customer"
  const CancelledByBusinessMessage := "Your booking has been cancelled by the business."
  const CancelledByUserMessage := "A customer has cancelled their booking."
  const DefaultPurchaseMessage := "A customer has purchased products."

  // ---------------------------------------------------------------------------
  // Messages

  /** The store name used in a message: the business's name, or "your store"
      when it has none or only white space. */
  function StoreName(name: Option<string>): (r: string)
    ensures !IsJavaBlank(r)
    ensures name.Some? && !IsJavaBlank(name.value) ==> r == name.value
    ensures name.None? || IsJavaBlank(name.value) ==> r == DefaultStoreName
  {
    assert !IsJavaSpace(DefaultStoreName[0]);
    if name.None? || IsJavaBlank(name.value) then DefaultStoreName else name.value
  }

  /** The customer name used in a message: the full name, else the user
      name, else "a customer". */
  function CustomerName(user: User): (r: string)
    ensures user.fullName.Some? ==> r == user.fullName.value
    ensures user.fullName.None? && user.username.Some? ==> r == user.username.value
    ensures user.fullName.None? && user.username.None? ==> r == DefaultCustomerName
  {
    match user.fullName
    case Some(n) => n
    case None => if user.username.Some? then user.username.value else DefaultCustomerName
  }

  const BookingCreatedPrefix := "A new booking has been made at "
  const BookingCreatedMiddle := " by "

  function BookingCreatedMessage(store: string, customer: string): string {
    BookingCreatedPrefix + store + BookingCreatedMiddle + customer + "."
  }

  /** The message names the store and then the customer: the store name
      follows the fixed opening and the customer name closes the sentence. */
  lemma BookingCreatedMessageParts(store: string, customer: string)
    ensures var m := BookingCreatedMessage(store, customer);
      |m| == |BookingCreatedPrefix| + |store| + |BookingCreatedMiddle| + |customer| + 1
      && m[..|BookingCreatedPrefix|] == BookingCreatedPrefix
      && m[|BookingCreatedPrefix|..|BookingCreatedPrefix| + |store|] == store
      && m[|m| - 1 - |customer|..|m| - 1] == customer
      && m[|m| - 1] == '.'
  {
    var m := BookingCreatedMessage(store, customer);
    var a := BookingCreatedPrefix + store + BookingCreatedMiddle;
    assert m == a + customer + ".";
    assert m[..|BookingCreatedPrefix|] == (BookingCreatedPrefix + store)[..|BookingCreatedPrefix|];
  }

  /** The message a purchase sends: the detail given, or the default. */
  function PurchaseMessage(detail: Option<string>): (r: string)
    ensures detail.Some? ==> r == detail.value
    ensures detail.None? ==> r == DefaultPurchaseMessage
  {
    if detail.Some? then detail.value else DefaultPurchaseMessage
  }

  // ---------------------------------------------------------------------------
  // The inbox

  predicate InInbox(n: Notification, receiverId: int) {
    n.receiverId == receiverId && !n.dismissed
  }

  function CreatedAt(n: Notification): int {
    n.createdAt
  }

  /** findByReceiverIdAndDismissedFalseOrderByCreatedAtDesc: the receiver's
      notifications that are not dismissed, each as often as it is stored,
      newest first. */
  function Inbox(store: seq<Notification>, receiverId: int): (r: seq<Notification>)
    ensures forall n :: n in r <==> n in store && InInbox(n, receiverId)
    ensures forall n :: InInbox(n, receiverId) ==> multiset(r)[n] == multiset(store)[n]
    ensures SortedDesc(r, CreatedAt)
  {
    var p := (n: Notification) => InInbox(n, receiverId);
    var kept := Filter(store, p);
    SortDescCorrect(kept, CreatedAt);
    forall n | InInbox(n, receiverId) ensures multiset(SortDesc(kept, CreatedAt))[n] == multiset(store)[n] {
      FilterCount(store, p, n);
    }
    forall n ensures n in kept <==> n in store && InInbox(n, receiverId) {
      FilterMembership(store, p, n);
    }
    forall n ensures n in SortDesc(kept, CreatedAt) <==> n in kept {
      assert n in SortDesc(kept, CreatedAt) <==> n in multiset(SortDesc(kept, CreatedAt));
    }
    SortDesc(kept, CreatedAt)
  }

  /** Inbox entries created at the same instant `at` keep the order in which
      they were stored. */
  lemma InboxTiesKeepStoreOrder(store: seq<Notification>, receiverId: int, at: int)
    ensures var sameTime := (n: Notification) => CreatedAt(n) == at;
      Filter(Inbox(store, receiverId), sameTime)
      == Filter(Filter(store, (n: Notification) => InInbox(n, receiverId)), sameTime)
  {
    SortDescStable(Filter(store, (n: Notification) => InInbox(n, receiverId)), CreatedAt,
      (n: Notification) => CreatedAt(n) == at, at);
  }

  /** The identity column: the notification at position i has id i + 1. */
  predicate IdsArePositions(store: seq<Notification>) {
    forall i :: 0 <= i < |store| ==> store[i].id == i + 1
  }

  /** Dismissing a notification takes it out of its receiver's inbox and out
      of no other inbox, and brings nothing in. */
  lemma DismissLeavesInbox(store: seq<Notification>, k: int, receiverId: int)
    requires IdsArePositions(store) && 0 <= k < |store|
    ensures var after := store[k := store[k].(dismissed := true)];
      forall n :: n in Inbox(after, receiverId) <==> n in Inbox(store, receiverId) && n.id != store[k].id
  {
    var after := store[k := store[k].(dismissed := true)];
    forall n ensures n in after && InInbox(n, receiverId) <==> n in store && InInbox(n, receiverId) && n.id != store[k].id {
      if n in after && InInbox(n, receiverId) {
        var i :| 0 <= i < |after| && after[i] == n;
        assert i != k;
        assert store[i] == n && n.id == i + 1;
      }
      if n in store && InInbox(n, receiverId) && n.id != store[k].id {
        var i :| 0 <= i < |store| && store[i] == n;
        assert after[i] == n;
      }
    }
  }

  /** Every user a booking or a business refers to exists. */
  predicate LinksResolve(users: map<int, User>, bookings: map<int, BookingLink>, services: map<int, ServiceLink>) {
    (forall id :: id in bookings ==> UserResolves(users, bookings[id].userId))
    && (forall id :: id in services ==> OwnerResolves(users, services[id]))
  }

  predicate OwnerResolves(users: map<int, User>, service: ServiceLink) {
    service.business.Some? ==> UserResolves(users, service.business.value.ownerId)
  }

  predicate UserResolves(users: map<int, User>, userId: Option<int>) {
    userId.Some? ==> userId.value in users
  }

  /** The booking exists with a service and a user, and the service exists
      with a business that has an owner. */
  predicate OwnerReachable(bookings: map<int, BookingLink>, services: map<int, ServiceLink>, bookingId: int) {
    bookingId in bookings
    && bookings[bookingId].serviceId.Some? && bookings[bookingId].userId.Some?
    && bookings[bookingId].serviceId.value in services
    && services[bookings[bookingId].serviceId.value].business.Some?
    && services[bookings[bookingId].serviceId.value].business.value.ownerId.Some?
  }

  // ---------------------------------------------------------------------------
  // The service

  class Notifications {
    const users: map<int, User>
    const bookings: map<int, BookingLink>
    const services: map<int, ServiceLink>
    var store: seq<Notification>

    /** The ids are the positions, and the users that bookings and
        businesses refer to exist (the tables' foreign keys). */
    ghost predicate Valid()
      reads this
    {
      IdsArePositions(store) && LinksResolve(users, bookings, services)
    }

    constructor(users: map<int, User>, bookings: map<int, BookingLink>, services: map<int, ServiceLink>)
      requires LinksResolve(users, bookings, services)
      ensures Valid()
      ensures this.users == users && this.bookings == bookings && this.services == services
      ensures store == []
    {
      this.users, this.bookings, this.services := users, bookings, services;
      store := [];
    }

    /** createNotification: the receiver must be a user; a sender that is
        absent or not a user is recorded as no sender. The new notification
        is not dismissed, carries the clock's time and gets the next id. */
    method CreateNotification(message: string, senderId: Option<int>, receiverId: int, now: int)
      returns (r: Result<int>)
      requires Valid()
      modifies this`store
      ensures Valid()
      ensures receiverId !in users ==> r == Err(ReceiverNotFound) && store == old(store)
      ensures receiverId in users ==>
        r == Ok(|old(store)| + 1)
        && store == old(store) + [Notification(|old(store)| + 1, message,
          if senderId.Some? && senderId.value in users then senderId else None, receiverId, false, now)]
    {
      var sender := if senderId.Some? && senderId.value in users then senderId else None;
      if receiverId !in users {
        return Err(ReceiverNotFound);
      }
      var id := |store| + 1;
      store := store + [Notification(id, message, sender, receiverId, false, now)];
      r := Ok(id);
    }

    /** getByReceiver. */
    function GetByReceiver(receiverId: int): (r: seq<Notification>)
      reads this
      ensures forall n :: n in r <==> n in store && n.receiverId == receiverId && !n.dismissed
      ensures forall n: Notification :: n.receiverId == receiverId && !n.dismissed ==> multiset(r)[n] == multiset(store)[n]
      ensures SortedDesc(r, CreatedAt)
    {
      Inbox(store, receiverId)
    }

    /** dismiss: nothing happens for an unknown id or when the caller is not
        the receiver; otherwise only that notification's `dismissed` flag is
        set. */
    method Dismiss(notificationId: int, userId: int)
      requires Valid()
      modifies this`store
      ensures Valid()
      ensures !(1 <= notificationId <= |old(store)|) ==> store == old(store)
      ensures 1 <= notificationId <= |old(store)| && old(store)[notificationId - 1].receiverId != userId ==>
        store == old(store)
      ensures 1 <= notificationId <= |old(store)| && old(store)[notificationId - 1].receiverId == userId ==>
        store == old(store)[notificationId - 1 := old(store)[notificationId - 1].(dismissed := true)]
    {
      if !(1 <= notificationId <= |store|) {
        return;
      }
      var n := store[notificationId - 1];
      if n.receiverId != userId {
        return;
      }
      store := store[notificationId - 1 := n.(dismissed := true)];
    }

    /** notifyBookingCreated: the owner of the booked service's business is
        told who booked at which store, with the customer as sender. Nothing
        is created when the booking, its service or user, or the business or
        its owner is missing. */
    method NotifyBookingCreated(bookingId: int, now: int) returns (created: Option<int>)
      requires Valid()
      modifies this`store
      ensures Valid()
      ensures created.None? <==> !OwnerReachable(bookings, services, bookingId)
      ensures created.None? ==> store == old(store)
      ensures created.Some? ==>
        var b := bookings[bookingId];
        var business := services[b.serviceId.value].business.value;
        store == old(store) + [Notification(|old(store)| + 1,
          BookingCreatedMessage(StoreName(business.name), CustomerName(users[b.userId.value])),
          b.userId, business.ownerId.value, false, now)]
    {
      if !OwnerReachable(bookings, services, bookingId) {
        return None;
      }
      var b := bookings[bookingId];
      var business := services[b.serviceId.value].business.value;
      assert forall id :: id in services ==> OwnerResolves(users, services[id]);
      assert UserResolves(users, b.userId) && OwnerResolves(users, services[b.serviceId.value]);
      var msg := BookingCreatedMessage(StoreName(business.name), CustomerName(users[b.userId.value]));
      var r := CreateNotification(msg, b.userId, business.ownerId.value, now);
      created := Some(r.value);
    }

    /** notifyBookingCancelledByBusiness: the booking's user gets the fixed
        message, with no sender; nothing happens without a booking or user. */
    method NotifyBookingCancelledByBusiness(bookingId: int, now: int) returns (created: Option<int>)
      requires Valid()
      modifies this`store
      ensures Valid()
      ensures created.None? <==> bookingId !in bookings || bookings[bookingId].userId.None?
      ensures created.None? ==> store == old(store)
      ensures created.Some? ==>
        store == old(store) + [Notification(|old(store)| + 1, CancelledByBusinessMessage, None,
          bookings[bookingId].userId.value, false, now)]
    {
      if bookingId !in bookings || bookings[bookingId].userId.None? {
        return None;
      }
      assert UserResolves(users, bookings[bookingId].userId);
      var r := CreateNotification(CancelledByBusinessMessage, None, bookings[bookingId].userId.value, now);
      created := Some(r.value);
    }

    /** notifyBookingCancelledByUser: the owner of the booked service's
        business is told, with the booking's user as sender; nothing happens
        when the booking, its service, business, owner or user is missing. */
    method NotifyBookingCancelledByUser(bookingId: int, now: int) returns (created: Option<int>)
      requires Valid()
      modifies this`store
      ensures Valid()
      ensures created.None? <==> !OwnerReachable(bookings, services, bookingId)
      ensures created.None? ==> store == old(store)
      ensures created.Some? ==>
        var b := bookings[bookingId];
        store == old(store) + [Notification(|old(store)| + 1, CancelledByUserMessage,
          b.userId, services[b.serviceId.value].business.value.ownerId.value, false, now)]
    {
      if !OwnerReachable(bookings, services, bookingId) {
        return None;
      }
      var b := bookings[bookingId];
      assert forall id :: id in services ==> OwnerResolves(users, services[id]);
      assert OwnerResolves(users, services[b.serviceId.value]);
      var r := CreateNotification(CancelledByUserMessage, b.userId, services[b.serviceId.value].business.value.ownerId.value, now);
      created := Some(r.value);
    }

    /** notifyProductPurchase: the business owner gets the detail message,
        or the default one when there is none, from the buyer. */
    method NotifyProductPurchase(buyerId: int, ownerId: int, detail: Option<string>, now: int) returns (r: Result<int>)
      requires Valid()
      modifies this`store
      ensures Valid()
      ensures ownerId !in users ==> r == Err(ReceiverNotFound) && store == old(store)
      ensures ownerId in users ==>
        r == Ok(|old(store)| + 1)
        && store == old(store) + [Notification(|old(store)| + 1, PurchaseMessage(detail),
          if buyerId in users then Some(buyerId) else None, ownerId, false, now)]
    {
      r := CreateNotification(PurchaseMessage(detail), Some(buyerId), ownerId, now);
    }
  }
}
