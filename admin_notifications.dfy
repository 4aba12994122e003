/**
 * The in-memory list of notifications for the second admin: a new farmer
 * registering or a soil test being booked appends one entry whose id is
 * the list's length plus one. The admin panel shows the list newest first.
 * The clock is outside the model: the date and time come in as text.
 */
module AdminNotifications {

  datatype NotificationKind = NewFarmer | SoilTest(bookingId: string, testType: string)

  datatype AdminNotification = AdminNotification(
    id: int,
    kind: NotificationKind,
    username: string,
    name: string,
    message: string,
    timestamp: string,
    read: bool)

  function NewFarmerMessage(username: string, name: string): string
  {
    "New farmer registered: " + name + " (" + username + ")"
  }

  function SoilTestMessage(name: string, testType: string, bookingId: string): string
  {
    "Soil test booked by " + name + ": " + testType + " (ID: " + bookingId + ")"
  }

  function Timestamp(date: string, time: string): string
  {
    date + " " + time
  }

  /** Ids run 1, 2, 3, ... in list order. */
  predicate SequentialIds(s: seq<AdminNotification>)
  {
    forall i | 0 <= i < |s| :: s[i].id == i + 1
  }

  /** Ids strictly decrease along the list. */
  predicate StrictlyDescendingIds(s: seq<AdminNotification>)
  {
    forall i, j | 0 <= i < j < |s| :: s[i].id > s[j].id
  }

  /** The list as the admin panel shows it: newest first. */
  function NewestFirst(s: seq<AdminNotification>): (r: seq<AdminNotification>)
    ensures |r| == |s|
    ensures forall i | 0 <= i < |s| :: r[i] == s[|s| - 1 - i]
  {
    if s == [] then [] else [s[|s| - 1]] + NewestFirst(s[..|s| - 1])
  }

  lemma {:induction false} NewestFirstPermutes(s: seq<AdminNotification>)
    ensures multiset(NewestFirst(s)) == multiset(s)
    decreases |s|
  {
    if s != [] {
      var n := |s| - 1;
      NewestFirstPermutes(s[..n]);
      assert s == s[..n] + [s[n]];
    }
  }

  /**
   * With ids assigned as the log assigns them, the newest-first view is a
   * permutation of the log whose ids strictly decrease: exactly what
   * sorting by id in reverse produces.
   */
  lemma NewestFirstSorted(s: seq<AdminNotification>)
    requires SequentialIds(s)
    ensures StrictlyDescendingIds(NewestFirst(s))
    ensures multiset(NewestFirst(s)) == multiset(s)
  {
    NewestFirstPermutes(s);
  }

  class AdminNotificationLog {
    var entries: seq<AdminNotification>

    ghost predicate Valid()
      reads this
    {
      SequentialIds(entries)
    }

    constructor ()
      ensures Valid() && entries == []
    {
      entries := [];
    }

    /**
     * The number of notifications the admin endpoint reports. With ids
     * handed out as the log hands them out, it is the newest entry's id
     * and no entry's id exceeds it, so the next id, one past it, is new.
     */
    function Count(): (n: nat)
      requires Valid()
      reads this
      ensures n == |entries|
      ensures n == 0 || entries[n - 1].id == n
      ensures forall i | 0 <= i < |entries| :: entries[i].id <= n
    {
      |entries|
    }

    /** A new farmer registered: append an unread entry numbered one past the end. */
    method NotifyNewFarmer(username: string, name: string, date: string, time: string)
      returns (n: AdminNotification)
      requires Valid()
      modifies this
      ensures Valid() && Count() == old(Count()) + 1
      ensures n == AdminNotification(|old(entries)| + 1, NewFarmer, username, name,
                                     NewFarmerMessage(username, name), Timestamp(date, time), false)
      ensures entries == old(entries) + [n]
    {
      n := AdminNotification(|entries| + 1, NewFarmer, username, name,
                             NewFarmerMessage(username, name), Timestamp(date, time), false);
      entries := entries + [n];
    }

    /** A soil test was booked: append an unread entry numbered one past the end. */
    method NotifySoilTest(username: string, name: string, bookingId: string, testType: string,
                          date: string, time: string)
      returns (n: AdminNotification)
      requires Valid()
      modifies this
      ensures Valid() && Count() == old(Count()) + 1
      ensures n == AdminNotification(|old(entries)| + 1, SoilTest(bookingId, testType), username, name,
                                     SoilTestMessage(name, testType, bookingId), Timestamp(date, time), false)
      ensures entries == old(entries) + [n]
    {
      n := AdminNotification(|entries| + 1, SoilTest(bookingId, testType), username, name,
                             SoilTestMessage(name, testType, bookingId), Timestamp(date, time), false);
      entries := entries + [n];
    }
  }
}
