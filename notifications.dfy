/** app/profile/notifications.tsx: the notification list of the
    notification centre, its read/clear updates, the unread badge count,
    the icon per notification type and the relative-time label. */
module Notifications {

  /** The `type` union of a notification. */
  datatype NotificationType = Poi | Capture | King | Challenge | Friend | Leaderboard {
    function Name(): string {
      match this
      case Poi => "poi"
      case Capture => "capture"
      case King => "king"
      case Challenge => "challenge"
      case Friend => "friend"
      case Leaderboard => "leaderboard"
    }
  }

  datatype Notification = Notification(
    id: string,
    kind: string,
    title: string,
    message: string,
    timestamp: string,
    read: bool)

  // ---------------------------------------------------------------------------
  // getIcon
  // ---------------------------------------------------------------------------

  datatype Icon = MapPin | CheckCircle | Trophy | Zap | Users | Award

  /** The switch of getIcon; any other string falls to MapPin. */
  function GetIcon(kind: string): Icon {
    if kind == "poi" then MapPin
    else if kind == "capture" then CheckCircle
    else if kind == "king" then Trophy
    else if kind == "challenge" then Zap
    else if kind == "friend" then Users
    else if kind == "leaderboard" then Award
    else MapPin
  }

  /** The icon each notification type is drawn with. */
  function IconFor(t: NotificationType): Icon {
    match t
    case Poi => MapPin
    case Capture => CheckCircle
    case King => Trophy
    case Challenge => Zap
    case Friend => Users
    case Leaderboard => Award
  }

  /** getIcon dispatches every type to its own icon and is total: a string
      that names no type gets MapPin. Only "poi" shares its icon with the
      fallback. */
  lemma GetIconDispatch(kind: string)
    ensures forall t: NotificationType :: GetIcon(t.Name()) == IconFor(t)
    ensures (forall t: NotificationType :: kind != t.Name()) ==> GetIcon(kind) == MapPin
    ensures forall a: NotificationType, b: NotificationType :: a != b ==> IconFor(a) != IconFor(b)
  {
    forall t: NotificationType
      ensures GetIcon(t.Name()) == IconFor(t)
    {
      match t
      case Poi =>
      case Capture =>
      case King =>
      case Challenge =>
      case Friend =>
      case Leaderboard =>
    }
    if forall t: NotificationType :: kind != t.Name() {
      assert kind != Poi.Name() && kind != Capture.Name() && kind != King.Name();
      assert kind != Challenge.Name() && kind != Friend.Name() && kind != Leaderboard.Name();
    }
  }

  // ---------------------------------------------------------------------------
  // formatTimestamp
  // ---------------------------------------------------------------------------

  /** The label formatTimestamp picks; the counts are what the translation
      receives, and an old notification shows its absolute date. */
  datatype TimeLabel = JustNow | MinutesAgo(minutes: int) | HoursAgo(hours: int) | DaysAgo(days: int) | AbsoluteDate

  /** formatTimestamp for `diffMs` = now minus the timestamp, in ms. Dafny's
      `/` by a positive divisor rounds down, as Math.floor does. */
  function FormatTimestamp(diffMs: int): TimeLabel {
    var minutes := diffMs / 1000 / 60;
    var hours := minutes / 60;
    var days := hours / 24;
    if minutes < 1 then JustNow
    else if minutes < 60 then MinutesAgo(minutes)
    else if hours < 24 then HoursAgo(hours)
    else if days < 7 then DaysAgo(days)
    else AbsoluteDate
  }

  const MinuteMs: int := 60_000
  const HourMs: int := 3_600_000
  const DayMs: int := 86_400_000

  /** Each label covers one range of differences, and the count it shows is
      the number of whole units elapsed: under a minute (also in the
      future) is "just now", then 1-59 minutes, 1-23 hours, 1-6 days, and
      a week or more shows the date. */
  lemma FormatTimestampBuckets(diffMs: int)
    ensures FormatTimestamp(diffMs) == JustNow <==> diffMs < MinuteMs
    ensures FormatTimestamp(diffMs).MinutesAgo? <==> MinuteMs <= diffMs < HourMs
    ensures FormatTimestamp(diffMs).HoursAgo? <==> HourMs <= diffMs < DayMs
    ensures FormatTimestamp(diffMs).DaysAgo? <==> DayMs <= diffMs < 7 * DayMs
    ensures FormatTimestamp(diffMs) == AbsoluteDate <==> 7 * DayMs <= diffMs
    ensures FormatTimestamp(diffMs).MinutesAgo? ==>
      var m := FormatTimestamp(diffMs).minutes;
      1 <= m < 60 && m * MinuteMs <= diffMs < (m + 1) * MinuteMs
    ensures FormatTimestamp(diffMs).HoursAgo? ==>
      var h := FormatTimestamp(diffMs).hours;
      1 <= h < 24 && h * HourMs <= diffMs < (h + 1) * HourMs
    ensures FormatTimestamp(diffMs).DaysAgo? ==>
      var d := FormatTimestamp(diffMs).days;
      1 <= d < 7 && d * DayMs <= diffMs < (d + 1) * DayMs
  {
    var minutes := diffMs / 1000 / 60;
    var hours := minutes / 60;
    var days := hours / 24;
    assert minutes == diffMs / MinuteMs;
    assert hours == diffMs / HourMs;
    assert days == diffMs / DayMs;
  }

  /** A later "now" never moves a notification to an earlier label kind. */
  lemma FormatTimestampMonotone(d1: int, d2: int)
    requires d1 <= d2
    ensures Stage(FormatTimestamp(d1)) <= Stage(FormatTimestamp(d2))
  {
    FormatTimestampBuckets(d1);
    FormatTimestampBuckets(d2);
  }

  function Stage(l: TimeLabel): nat {
    match l
    case JustNow => 0
    case MinutesAgo(_) => 1
    case HoursAgo(_) => 2
    case DaysAgo(_) => 3
    case AbsoluteDate => 4
  }

  lemma FormatTimestampExamples()
    ensures FormatTimestamp(-5000) == JustNow
    ensures FormatTimestamp(59_999) == JustNow
    ensures FormatTimestamp(5 * MinuteMs) == MinutesAgo(5)
    ensures FormatTimestamp(2 * HourMs) == HoursAgo(2)
    ensures FormatTimestamp(DayMs) == DaysAgo(1)
    ensures FormatTimestamp(7 * DayMs) == AbsoluteDate
  {
  }

  // ---------------------------------------------------------------------------
  // markAsRead, markAllAsRead, clearAll, unreadCount
  // ---------------------------------------------------------------------------

  /** markAsRead(id): entries with that id become read. */
  function MarkAsRead(ns: seq<Notification>, id: string): seq<Notification> {
    seq(|ns|, i requires 0 <= i < |ns| => if ns[i].id == id then ns[i].(read := true) else ns[i])
  }

  /** markAllAsRead. */
  function MarkAllAsRead(ns: seq<Notification>): seq<Notification> {
    seq(|ns|, i requires 0 <= i < |ns| => ns[i].(read := true))
  }

  /** clearAll. */
  function ClearAll(): seq<Notification> {
    []
  }

  /** `notifications.filter(n => !n.read)`. */
  function Unread(ns: seq<Notification>): seq<Notification> {
    if ns == [] then []
    else if !ns[0].read then [ns[0]] + Unread(ns[1..])
    else Unread(ns[1..])
  }

  /** The badge count. */
  function UnreadCount(ns: seq<Notification>): nat {
    |Unread(ns)|
  }

  function ReadFlags(ns: seq<Notification>): seq<bool> {
    seq(|ns|, i requires 0 <= i < |ns| => ns[i].read)
  }

  /** The badge counts the entries whose read flag is false, and is zero
      exactly when every entry has been read. */
  lemma {:induction false} UnreadCountCountsUnread(ns: seq<Notification>)
    ensures UnreadCount(ns) == multiset(ReadFlags(ns))[false]
    ensures UnreadCount(ns) == 0 <==> forall i :: 0 <= i < |ns| ==> ns[i].read
    decreases |ns|
  {
    if ns != [] {
      UnreadCountCountsUnread(ns[1..]);
      assert ReadFlags(ns) == [ns[0].read] + ReadFlags(ns[1..]);
      if forall i :: 0 <= i < |ns| ==> ns[i].read {
        assert forall i :: 0 <= i < |ns[1..]| ==> ns[1..][i].read == ns[i + 1].read;
      }
      if forall i :: 0 <= i < |ns[1..]| ==> ns[1..][i].read {
        assert forall i :: 1 <= i < |ns| ==> ns[i].read == ns[1..][i - 1].read;
      }
    }
  }

  /** markAsRead keeps the order and every field but `read`, sets `read` on
      the entries with the id and leaves the others alone. */
  lemma MarkAsReadEffect(ns: seq<Notification>, id: string)
    ensures var r := MarkAsRead(ns, id);
      && |r| == |ns|
      && (forall i :: 0 <= i < |ns| ==> r[i].(read := ns[i].read) == ns[i])
      && (forall i :: 0 <= i < |ns| ==> r[i].read == (ns[i].read || ns[i].id == id))
  {
  }

  /** Marking as read twice is marking once; marking two ids commutes. */
  lemma MarkAsReadIdempotent(ns: seq<Notification>, id: string, other: string)
    ensures MarkAsRead(MarkAsRead(ns, id), id) == MarkAsRead(ns, id)
    ensures MarkAsRead(MarkAsRead(ns, id), other) == MarkAsRead(MarkAsRead(ns, other), id)
  {
  }

  /** Marking one entry read drops the badge by the number of unread entries
      with that id. */
  lemma {:induction false} MarkAsReadCount(ns: seq<Notification>, id: string)
    ensures UnreadCount(MarkAsRead(ns, id)) == UnreadCount(ns) - |UnreadWithId(ns, id)|
    decreases |ns|
  {
    if ns != [] {
      MarkAsReadCount(ns[1..], id);
      assert MarkAsRead(ns, id)[1..] == MarkAsRead(ns[1..], id);
    }
  }

  function UnreadWithId(ns: seq<Notification>, id: string): seq<Notification> {
    if ns == [] then []
    else if !ns[0].read && ns[0].id == id then [ns[0]] + UnreadWithId(ns[1..], id)
    else UnreadWithId(ns[1..], id)
  }

  /** markAllAsRead leaves nothing unread, keeps every other field and the
      order, and is idempotent. */
  lemma MarkAllAsReadEffect(ns: seq<Notification>)
    ensures var r := MarkAllAsRead(ns);
      && |r| == |ns|
      && (forall i :: 0 <= i < |ns| ==> r[i].read && r[i].(read := ns[i].read) == ns[i])
      && UnreadCount(r) == 0
      && MarkAllAsRead(r) == r
  {
    UnreadCountCountsUnread(MarkAllAsRead(ns));
  }

  /** Marking everything read is marking each id read in turn. */
  lemma {:induction false} MarkAllIsMarkEach(ns: seq<Notification>, ids: seq<string>)
    requires forall i :: 0 <= i < |ns| ==> ns[i].id in ids
    ensures MarkEach(ns, ids) == MarkAllAsRead(ns)
  {
    MarkEachReads(ns, ids);
  }

  function MarkEach(ns: seq<Notification>, ids: seq<string>): seq<Notification>
    decreases |ids|
  {
    if ids == [] then ns else MarkEach(MarkAsRead(ns, ids[0]), ids[1..])
  }

  lemma {:induction false} MarkEachReads(ns: seq<Notification>, ids: seq<string>)
    ensures var r := MarkEach(ns, ids);
      && |r| == |ns|
      && forall i :: 0 <= i < |ns| ==> r[i] == ns[i].(read := ns[i].read || ns[i].id in ids)
    decreases |ids|
  {
    if ids != [] {
      MarkEachReads(MarkAsRead(ns, ids[0]), ids[1..]);
    }
  }

  /** clearAll empties the list, so the badge is zero. */
  lemma ClearAllEffect()
    ensures |ClearAll()| == 0 && UnreadCount(ClearAll()) == 0
  {
  }
}
