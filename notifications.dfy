/** The notification store (src/components/Notifications.tsx), local
    branch: tab filtering and newest-first ordering on fetch, mark as read,
    sending a message and generating reminders for tomorrow's
    appointments, over the array stored under "dentclinic-notifications". */
module Notifications {
  import opened Lists
  import opened Text
  import opened Storage
  import Appointments

  const NotificationsKey := "dentclinic-notifications"

  datatype Kind = Appointment | Message | Alert

  /** A stored notification. `date` is the instant it carries, as the
      millisecond count `new Date(date).getTime()` gives. */
  datatype Notification = Notification(
    id: string,
    title: string,
    message: string,
    kind: Kind,
    date: int,
    read: bool,
    patientId: Option<string>,
    patientName: Option<string>)

  /** The tabs of the view: everything, the unread ones, or one type. */
  datatype Tab = All | Unread | OfKind(kind: Kind)

  // --------------------------------------------------------------- fetch

  /** Whether a notification is listed on a tab. */
  predicate ShownOnTab(n: Notification, tab: Tab) {
    match tab
    case All => true
    case Unread => !n.read
    case OfKind(k) => n.kind == k
  }

  /** The tab filter of `fetchNotifications`: tab "all" keeps the list as
      it is; any other tab keeps every notification it shows and nothing
      else. */
  function FilterByTab(s: seq<Notification>, tab: Tab): (r: seq<Notification>)
    ensures tab.All? ==> r == s
    ensures forall i :: 0 <= i < |r| ==> ShownOnTab(r[i], tab)
    ensures forall n :: multiset(r)[n] == if ShownOnTab(n, tab) then multiset(s)[n] else 0
  {
    if tab.All? then s
    else Filter(s, (n: Notification) => ShownOnTab(n, tab))
  }

  /** Filtering keeps the stored order. */
  lemma FilterByTabKeepsOrder(s: seq<Notification>, tab: Tab)
    ensures IsSubsequence(FilterByTab(s, tab), s)
  {
    if tab.All? {
      SubsequenceOfItself(s);
    } else {
      FilterIsSubsequence(s, (n: Notification) => ShownOnTab(n, tab));
    }
  }

  /** Newest first: dates never increase along the list. */
  ghost predicate NewestFirst(s: seq<Notification>) {
    forall i, j :: 0 <= i < j < |s| ==> s[i].date >= s[j].date
  }

  /** Exchanges two neighbouring notifications. */
  method SwapDown(a: array<Notification>, j: int)
    requires 0 < j < a.Length
    modifies a
    ensures a[j - 1] == old(a[j]) && a[j] == old(a[j - 1])
    ensures forall k :: 0 <= k < a.Length && k != j - 1 && k != j ==> a[k] == old(a[k])
    ensures multiset(a[..]) == old(multiset(a[..]))
  {
    ghost var before := a[..];
    a[j - 1], a[j] := a[j], a[j - 1];
    assert a[..] == before[j - 1 := before[j]][j := before[j - 1]];
  }

  /** One step of the insertion sort: with `a[..i]` newest first, moves
      `a[i]` down past every older notification, so that `a[..i + 1]` is
      newest first. */
  method InsertNewest(a: array<Notification>, i: int)
    requires 0 <= i < a.Length
    requires forall k, l :: 0 <= k < l < i ==> a[k].date >= a[l].date
    modifies a
    ensures forall k, l :: 0 <= k < l <= i ==> a[k].date >= a[l].date
    ensures multiset(a[..]) == old(multiset(a[..]))
  {
    var j := i;
    while j > 0 && a[j - 1].date < a[j].date
      invariant 0 <= j <= i
      invariant forall k, l :: 0 <= k < l <= i && k != j && l != j ==> a[k].date >= a[l].date
      invariant forall l :: j < l <= i ==> a[j].date > a[l].date
      invariant multiset(a[..]) == old(multiset(a[..]))
    {
      SwapDown(a, j);
      j := j - 1;
    }
  }

  /** The sort of `fetchNotifications`, which orders by the dates' time
      values, later ones first; done in place by insertion: the array ends
      up newest first and holds the same notifications as before. */
  method SortNewestFirst(a: array<Notification>)
    modifies a
    ensures NewestFirst(a[..])
    ensures multiset(a[..]) == old(multiset(a[..]))
  {
    for i := 0 to a.Length
      invariant forall k, l :: 0 <= k < l < i ==> a[k].date >= a[l].date
      invariant multiset(a[..]) == old(multiset(a[..]))
    {
      InsertNewest(a, i);
    }
  }

  /** The local branch of `fetchNotifications`: the stored notifications
      the tab shows, newest first. */
  method FetchNotifications(key: StorageKey<Notification>, tab: Tab) returns (shown: seq<Notification>)
    requires key.name == NotificationsKey
    ensures multiset(shown) == multiset(FilterByTab(key.Loaded(), tab))
    ensures NewestFirst(shown)
  {
    var devNotifications := FilterByTab(key.Loaded(), tab);
    var a := new Notification[|devNotifications|](i requires 0 <= i < |devNotifications| => devNotifications[i]);
    assert a[..] == devNotifications;
    SortNewestFirst(a);
    shown := a[..];
  }

  predicate IsUnread(n: Notification) {
    !n.read
  }

  /** `unreadCount`: the number of unread notifications in the list. It is
      zero exactly when everything is read, and the length of the list
      exactly when nothing is. */
  function UnreadCount(s: seq<Notification>): (c: nat)
    ensures c <= |s|
    ensures c == 0 <==> forall i :: 0 <= i < |s| ==> s[i].read
    ensures c == |s| <==> forall i :: 0 <= i < |s| ==> !s[i].read
  {
    FilterEmptyIff(s, IsUnread);
    FilterFullIff(s, IsUnread);
    |Filter(s, IsUnread)|
  }

  /** Reordering does not change the unread count, so the badge counts
      the fetched view exactly as it counts the filtered list. */
  lemma UnreadCountOfPermutation(s: seq<Notification>, t: seq<Notification>)
    requires multiset(s) == multiset(t)
    ensures UnreadCount(s) == UnreadCount(t)
  {
    var fs := Filter(s, IsUnread);
    var ft := Filter(t, IsUnread);
    assert multiset(fs) == multiset(ft);
    assert |fs| == |multiset(fs)| && |ft| == |multiset(ft)|;
  }

  /** On the "unread" tab every listed notification counts. */
  lemma UnreadTabCountsAll(s: seq<Notification>)
    ensures UnreadCount(FilterByTab(s, Unread)) == |FilterByTab(s, Unread)|
  {
    FilterKeepsAll(FilterByTab(s, Unread), IsUnread);
  }

  /** Unread notifications put in front raise the count by their number. */
  lemma UnreadCountPrepend(added: seq<Notification>, s: seq<Notification>)
    requires forall i :: 0 <= i < |added| ==> !added[i].read
    ensures UnreadCount(added + s) == |added| + UnreadCount(s)
  {
    FilterConcat(added, s, IsUnread);
    FilterKeepsAll(added, IsUnread);
  }

  // ------------------------------------------------------------ mark read

  /** The `map` of `markAsRead`: the notifications with the id become read,
      nothing else changes. */
  function MarkedRead(s: seq<Notification>, id: string): (r: seq<Notification>)
    ensures |r| == |s|
    ensures forall i :: 0 <= i < |s| ==> r[i].read == (s[i].read || s[i].id == id)
    ensures forall i :: 0 <= i < |s| ==> r[i] == s[i].(read := r[i].read)
  {
    Map(s, (n: Notification) => if n.id == id then n.(read := true) else n)
  }

  /** Marking twice is marking once. */
  lemma MarkAsReadIdempotent(s: seq<Notification>, id: string)
    ensures MarkedRead(MarkedRead(s, id), id) == MarkedRead(s, id)
  {
    var once := MarkedRead(s, id);
    var twice := MarkedRead(once, id);
    assert forall i :: 0 <= i < |s| ==> twice[i] == once[i];
  }

  /** Marking as read lowers the unread count by the number of unread
      notifications with that id. */
  lemma {:induction false} UnreadCountAfterMarkAsRead(s: seq<Notification>, id: string)
    ensures UnreadCount(MarkedRead(s, id)) ==
            UnreadCount(s) - |Filter(s, (n: Notification) => n.id == id && !n.read)|
    decreases |s|
  {
    if s != [] {
      UnreadCountAfterMarkAsRead(s[1..], id);
      var r := MarkedRead(s, id);
      assert r[1..] == MarkedRead(s[1..], id);
      assert Filter(r, IsUnread) ==
             (if !r[0].read then [r[0]] else []) + Filter(r[1..], IsUnread);
    }
  }

  /** `markAsRead`, local branch. */
  method MarkAsRead(key: StorageKey<Notification>, id: string)
    requires key.name == NotificationsKey
    modifies key
    ensures key.entry == Present(MarkedRead(old(key.Loaded()), id))
    ensures forall i :: 0 <= i < |old(key.Loaded())| && old(key.Loaded())[i].read ==> key.Loaded()[i].read
  {
    var allNotifications := key.Loaded();
    var updatedNotifications := MarkedRead(allNotifications, id);
    key.Save(updatedNotifications);
  }

  // ----------------------------------------------------------- send message

  /** The id each stored record carries. */
  function IdOf(n: Notification): string {
    n.id
  }

  /** Notifications with distinct ids none of which the store uses yet
      keep the ids unique when put in front of it. */
  lemma PrependKeepsIdsUnique(added: seq<Notification>, s: seq<Notification>)
    requires UniqueIds(added, IdOf) && UniqueIds(s, IdOf)
    requires forall i :: 0 <= i < |added| ==> added[i].id !in Ids(s, IdOf)
    ensures UniqueIds(added + s, IdOf)
  {
    var r := added + s;
    forall i, j | 0 <= i < j < |r| ensures r[i].id != r[j].id {
      if i < |added| <= j {
        assert r[j] == s[j - |added|] && s[j - |added|] in s;
      }
    }
  }

  /** The compose form needs a patient, a title and a body, none of them
      blank after trimming. */
  predicate MessageIncomplete(patientName: string, title: string, body: string) {
    IsBlank(patientName) || IsBlank(title) || IsBlank(body)
  }

  /** The notification a sent message becomes. */
  function NewMessage(id: string, patientName: string, title: string, body: string, now: int): Notification {
    Notification(id, title, body, Message, now, false, None, Some(patientName))
  }

  /** The view prepends a sent message on the tabs "all", "message" and
      "unread": exactly the tabs a fresh fetch would show it on. */
  lemma SentMessageTabs(id: string, patientName: string, title: string, body: string, now: int, tab: Tab)
    ensures ShownOnTab(NewMessage(id, patientName, title, body, now), tab)
            <==> tab.All? || tab == OfKind(Message) || tab.Unread?
  {
  }

  /** `sendMessage`, local branch; `id` and `now` stand for `generateId()`
      and the current time. */
  method SendMessage(key: StorageKey<Notification>, patientName: string, title: string, body: string,
                     id: string, now: int) returns (sent: bool)
    requires key.name == NotificationsKey
    requires id !in Ids(key.Loaded(), IdOf)
    modifies key
    ensures sent == !MessageIncomplete(patientName, title, body)
    ensures !sent ==> key.entry == old(key.entry)
    ensures sent ==> key.entry == Present([NewMessage(id, patientName, title, body, now)] + old(key.Loaded()))
    ensures sent ==> UnreadCount(key.Loaded()) == UnreadCount(old(key.Loaded())) + 1
    ensures UniqueIds(old(key.Loaded()), IdOf) ==> UniqueIds(key.Loaded(), IdOf)
  {
    if MessageIncomplete(patientName, title, body) {
      return false;
    }
    var allNotifications := key.Loaded();
    var newNotification := NewMessage(id, patientName, title, body, now);
    var updatedNotifications := [newNotification] + allNotifications;
    UnreadCountPrepend([newNotification], allNotifications);
    if UniqueIds(allNotifications, IdOf) {
      PrependKeepsIdsUnique([newNotification], allNotifications);
    }
    key.Save(updatedNotifications);
    sent := true;
  }

  // -------------------------------------------------------------- reminders

  datatype ReminderOutcome =
    | NoAppointmentsStored     // the appointments key is missing or empty
    | AppointmentsUnreadable   // parsing it throws; the error is caught
    | NoneTomorrow             // no scheduled appointment tomorrow
    | RemindersCreated(count: nat)

  const ReminderTitle := "Lembrete Automático de Consulta"

  function ReminderText(apt: Appointments.Appointment): string {
    "Lembrete: " + apt.patientName + " tem consulta agendada para amanhã às " + apt.time + "."
  }

  /** The reminder built for one appointment. */
  function Reminder(apt: Appointments.Appointment, id: string, now: int): Notification {
    Notification(id, ReminderTitle, ReminderText(apt), Appointment, now, false, None, Some(apt.patientName))
  }

  /** The stored appointments of `tomorrow` that are still scheduled. */
  function TomorrowAppointments(all: seq<Appointments.Appointment>, tomorrow: string): (r: seq<Appointments.Appointment>)
    ensures forall i :: 0 <= i < |r| ==> r[i].date == tomorrow && r[i].status == Appointments.Scheduled
    ensures forall a :: multiset(r)[a] ==
              if a.date == tomorrow && a.status == Appointments.Scheduled then multiset(all)[a] else 0
  {
    Filter(all, (a: Appointments.Appointment) => a.date == tomorrow && a.status == Appointments.Scheduled)
  }

  /** Tomorrow's appointments come in the order they are stored, so the
      reminders built from them do too. */
  lemma TomorrowAppointmentsKeepOrder(all: seq<Appointments.Appointment>, tomorrow: string)
    ensures IsSubsequence(TomorrowAppointments(all, tomorrow), all)
  {
    FilterIsSubsequence(all, (a: Appointments.Appointment) => a.date == tomorrow && a.status == Appointments.Scheduled);
  }

  /** One reminder per appointment, in the appointments' order, the i-th
      with the i-th id. */
  function Reminders(apts: seq<Appointments.Appointment>, ids: seq<string>, now: int): (r: seq<Notification>)
    requires |ids| >= |apts|
    ensures |r| == |apts|
    ensures forall i :: 0 <= i < |apts| ==> r[i] == Reminder(apts[i], ids[i], now)
    decreases |apts|
  {
    if apts == [] then []
    else [Reminder(apts[0], ids[0], now)] + Reminders(apts[1..], ids[1..], now)
  }

  /** Every reminder is an unread notification of type "appointment" naming
      its appointment's patient. */
  lemma RemindersAreUnreadAppointments(apts: seq<Appointments.Appointment>, ids: seq<string>, now: int)
    requires |ids| >= |apts|
    ensures forall i :: 0 <= i < |apts| ==>
              var r := Reminders(apts, ids, now)[i];
              r.kind == Appointment && !r.read && r.patientName == Some(apts[i].patientName)
              && r.title == ReminderTitle
  {
  }

  /** The view prepends new reminders on the tabs "all", "appointment" and
      "unread": exactly the tabs a fresh fetch would show them on. */
  lemma ReminderTabs(apt: Appointments.Appointment, id: string, now: int, tab: Tab)
    ensures ShownOnTab(Reminder(apt, id, now), tab)
            <==> tab.All? || tab == OfKind(Appointment) || tab.Unread?
  {
  }

  /** The loop of `createAppointmentReminders` that pushes one reminder
      per appointment. */
  method BuildReminders(apts: seq<Appointments.Appointment>, ids: seq<string>, now: int)
    returns (newNotifications: seq<Notification>)
    requires |ids| >= |apts|
    ensures newNotifications == Reminders(apts, ids, now)
  {
    newNotifications := [];
    for i := 0 to |apts|
      invariant |newNotifications| == i
      invariant forall k :: 0 <= k < i ==> newNotifications[k] == Reminder(apts[k], ids[k], now)
    {
      var reminder := Reminder(apts[i], ids[i], now);
      newNotifications := newNotifications + [reminder];
    }
  }

  /** `createAppointmentReminders`, local branch. `tomorrow` is tomorrow's
      date as "YYYY-MM-DD", `ids` the values `generateId()` returns, one
      per reminder, and `now` the current time. */
  method CreateAppointmentReminders(appointmentsKey: StorageKey<Appointments.Appointment>,
                                    key: StorageKey<Notification>, tomorrow: string,
                                    ids: seq<string>, now: int)
    returns (outcome: ReminderOutcome)
    requires appointmentsKey.name == Appointments.AppointmentsKey && key.name == NotificationsKey
    requires |ids| >= |TomorrowAppointments(appointmentsKey.Loaded(), tomorrow)|
    requires forall i :: 0 <= i < |ids| ==> ids[i] !in Ids(key.Loaded(), IdOf)
    requires forall i, j :: 0 <= i < j < |ids| ==> ids[i] != ids[j]
    modifies key
    ensures old(appointmentsKey.entry).Absent? ==> outcome == NoAppointmentsStored && key.entry == old(key.entry)
    ensures old(appointmentsKey.entry).Unreadable? ==> outcome == AppointmentsUnreadable && key.entry == old(key.entry)
    ensures old(appointmentsKey.entry).Present? ==>
              var due := TomorrowAppointments(old(appointmentsKey.entry).records, tomorrow);
              && (due == [] ==> outcome == NoneTomorrow && key.entry == old(key.entry))
              && (due != [] ==>
                    outcome == RemindersCreated(|due|)
                    && key.entry == Present(Reminders(due, ids, now) + old(key.Loaded()))
                    && UnreadCount(key.Loaded()) == UnreadCount(old(key.Loaded())) + |due|)
    ensures UniqueIds(old(key.Loaded()), IdOf) ==> UniqueIds(key.Loaded(), IdOf)
  {
    match appointmentsKey.entry
    case Absent =>
      return NoAppointmentsStored;
    case Unreadable =>
      return AppointmentsUnreadable;
    case Present(appointments) =>
      var tomorrowAppointments := TomorrowAppointments(appointments, tomorrow);
      if |tomorrowAppointments| == 0 {
        return NoneTomorrow;
      }
      var allNotifications := key.Loaded();
      var newNotifications := BuildReminders(tomorrowAppointments, ids, now);
      RemindersAreUnreadAppointments(tomorrowAppointments, ids, now);
      UnreadCountPrepend(newNotifications, allNotifications);
      if UniqueIds(allNotifications, IdOf) {
        PrependKeepsIdsUnique(newNotifications, allNotifications);
      }
      var updatedNotifications := newNotifications + allNotifications;
      key.Save(updatedNotifications);
      outcome := RemindersCreated(|newNotifications|);
  }
}
