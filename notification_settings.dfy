/** app/profile/notification-settings.tsx: the eight notification switches
    and the toggle behind each of them. Saving is not part of the screen's
    logic (it only shows an alert). */
module NotificationSettings {

  datatype Settings = Settings(
    poiNearby: bool,
    captureComplete: bool,
    kingStatusChanged: bool,
    newChallenge: bool,
    friendActivity: bool,
    leaderboardUpdate: bool,
    dailyReminder: bool,
    weeklyReport: bool)

  /** `keyof typeof settings`. */
  datatype Key =
    | PoiNearby | CaptureComplete | KingStatusChanged | NewChallenge
    | FriendActivity | LeaderboardUpdate | DailyReminder | WeeklyReport

  /** `settings[key]`. */
  function Get(s: Settings, k: Key): bool {
    match k
    case PoiNearby => s.poiNearby
    case CaptureComplete => s.captureComplete
    case KingStatusChanged => s.kingStatusChanged
    case NewChallenge => s.newChallenge
    case FriendActivity => s.friendActivity
    case LeaderboardUpdate => s.leaderboardUpdate
    case DailyReminder => s.dailyReminder
    case WeeklyReport => s.weeklyReport
  }

  /** The initial state. */
  function InitialSettings(): Settings {
    Settings(true, true, true, false, true, false, true, true)
  }

  /** `{ ...prev, [key]: !prev[key] }`. */
  function ToggleSetting(s: Settings, k: Key): Settings {
    match k
    case PoiNearby => s.(poiNearby := !s.poiNearby)
    case CaptureComplete => s.(captureComplete := !s.captureComplete)
    case KingStatusChanged => s.(kingStatusChanged := !s.kingStatusChanged)
    case NewChallenge => s.(newChallenge := !s.newChallenge)
    case FriendActivity => s.(friendActivity := !s.friendActivity)
    case LeaderboardUpdate => s.(leaderboardUpdate := !s.leaderboardUpdate)
    case DailyReminder => s.(dailyReminder := !s.dailyReminder)
    case WeeklyReport => s.(weeklyReport := !s.weeklyReport)
  }

  /** Two records with the same value under every key are equal. */
  lemma SettingsByKey(a: Settings, b: Settings)
    requires forall k :: Get(a, k) == Get(b, k)
    ensures a == b
  {
    assert Get(a, PoiNearby) == Get(b, PoiNearby) && Get(a, CaptureComplete) == Get(b, CaptureComplete);
    assert Get(a, KingStatusChanged) == Get(b, KingStatusChanged) && Get(a, NewChallenge) == Get(b, NewChallenge);
    assert Get(a, FriendActivity) == Get(b, FriendActivity) && Get(a, LeaderboardUpdate) == Get(b, LeaderboardUpdate);
    assert Get(a, DailyReminder) == Get(b, DailyReminder) && Get(a, WeeklyReport) == Get(b, WeeklyReport);
  }

  /** Only newChallenge and leaderboardUpdate start off. */
  lemma InitialSettingsValues()
    ensures forall k :: !Get(InitialSettings(), k) <==> k == NewChallenge || k == LeaderboardUpdate
  {
  }

  /** A toggle flips its key and keeps every other key. */
  lemma ToggleSettingEffect(s: Settings, k: Key)
    ensures Get(ToggleSetting(s, k), k) == !Get(s, k)
    ensures forall j :: j != k ==> Get(ToggleSetting(s, k), j) == Get(s, j)
  {
  }

  /** Toggling the same key twice restores the record. */
  lemma ToggleSettingInvolution(s: Settings, k: Key)
    ensures ToggleSetting(ToggleSetting(s, k), k) == s
  {
  }
}
